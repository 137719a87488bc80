/**
 * The browser side of public/script.js, `StreamImageGenerator`: the
 * generation state it keeps in fields, the buffer that reassembles received
 * chunks into lines, the reducer that applies each decoded event, and the
 * guards on the prompt, the selected files and the download link.
 */
module Client {
  import opened Wrappers
  import opened Text
  import opened Json
  import opened Sse

  /** `this.totalStages` */
  const TotalStages := 4

  const ImageLimit := 10 * 1024 * 1024
  const VideoLimit := 50 * 1024 * 1024

  // ---------------------------------------------------------------- the generation state machine

  /**
   * The state `handleStreamData` and its helpers change: `currentStage`,
   * `currentSessionId`, whether the generate button is disabled, and whether
   * the image container and the download section are shown.
   */
  datatype Ui = Ui(stage: int, sessionId: Option<string>, busy: bool, containerVisible: bool, downloadVisible: bool)

  /** JavaScript truthiness of an optional string: present and not empty. */
  predicate Truthy(s: Option<string>)
  {
    s.Some? && s.value != ""
  }

  /** `startGeneration` */
  function Started(u: Ui): Ui
  {
    Ui(0, None, true, true, false)
  }

  /** `resetUI` */
  function Reset(u: Ui): Ui
  {
    Ui(0, None, false, false, false)
  }

  /** One event applied by `handleStreamData`. */
  function Reduce(u: Ui, e: StreamEvent): Ui
  {
    match e
    case Partial(i, _, sid) =>
      u.(stage := i + 1, sessionId := if Truthy(sid) then sid else u.sessionId)
    case Completed(_, sid) =>
      var s := if Truthy(sid) then sid else u.sessionId;
      u.(stage := TotalStages, sessionId := s, downloadVisible := u.downloadVisible || Truthy(s))
    case Done => u.(busy := false)
    case Error(_) => Reset(u)
  }

  /** An event if one was decoded; nothing happens otherwise. */
  function Deliver(u: Ui, e: Option<StreamEvent>): Ui
  {
    if e.Some? then Reduce(u, e.value) else u
  }

  /** Decoded events, or nothing, applied in order. */
  function DeliverAll(u: Ui, ds: seq<Option<StreamEvent>>): Ui
  {
    if ds == [] then u else Deliver(DeliverAll(u, ds[..|ds| - 1]), ds[|ds| - 1])
  }

  /** What each line delivers to `handleStreamData`, line by line. */
  function Decoded(lines: seq<string>): seq<Option<StreamEvent>>
  {
    if lines == [] then [] else Decoded(lines[..|lines| - 1]) + [LineEvent(lines[|lines| - 1])]
  }

  /** The lines dispatched by `processBuffer`, applied in order. */
  function ReduceLines(u: Ui, lines: seq<string>): Ui
  {
    DeliverAll(u, Decoded(lines))
  }

  /** Events applied in order. */
  function ReduceEvents(u: Ui, es: seq<StreamEvent>): Ui
  {
    if es == [] then u else Reduce(ReduceEvents(u, es[..|es| - 1]), es[|es| - 1])
  }

  lemma {:induction false} DeliverAllAppend(u: Ui, a: seq<Option<StreamEvent>>, b: seq<Option<StreamEvent>>)
    ensures DeliverAll(u, a + b) == DeliverAll(DeliverAll(u, a), b)
    decreases |b|
  {
    if b == [] {
      assert a + b == a;
    } else {
      assert (a + b)[..|a + b| - 1] == a + b[..|b| - 1];
      DeliverAllAppend(u, a, b[..|b| - 1]);
    }
  }

  lemma {:induction false} DecodedAppend(a: seq<string>, b: seq<string>)
    ensures Decoded(a + b) == Decoded(a) + Decoded(b)
    decreases |b|
  {
    if b == [] {
      assert a + b == a;
    } else {
      assert (a + b)[..|a + b| - 1] == a + b[..|b| - 1];
      assert (a + b)[|a + b| - 1] == b[|b| - 1];
      DecodedAppend(a, b[..|b| - 1]);
    }
  }

  lemma {:induction false} DecodedIndex(lines: seq<string>)
    ensures |Decoded(lines)| == |lines|
    ensures forall k :: 0 <= k < |lines| ==> Decoded(lines)[k] == LineEvent(lines[k])
    decreases |lines|
  {
    if lines != [] {
      var n := |lines| - 1;
      var init, d := lines[..n], Decoded(lines);
      DecodedIndex(init);
      assert d == Decoded(init) + [LineEvent(lines[n])];
      forall k | 0 <= k < n
        ensures d[k] == LineEvent(lines[k])
      {
        assert d[k] == Decoded(init)[k] && lines[k] == init[k];
      }
    }
  }

  /** Applying the lines of `a + b` is applying those of `a`, then those of `b`. */
  lemma ReduceLinesAppend(u: Ui, a: seq<string>, b: seq<string>)
    ensures ReduceLines(u, a + b) == ReduceLines(ReduceLines(u, a), b)
  {
    DecodedAppend(a, b);
    DeliverAllAppend(u, Decoded(a), Decoded(b));
  }

  /**
   * A line that delivers nothing (not a `data: ` line, an empty payload, or
   * a payload that fails to parse) is skipped, and the lines after it in the
   * same batch are still applied.
   */
  lemma UndecodedLineSkipped(u: Ui, before: seq<string>, line: string, after: seq<string>)
    requires LineEvent(line) == None
    ensures ReduceLines(u, before + [line] + after) == ReduceLines(u, before + after)
  {
    ReduceLinesAppend(u, before + [line], after);
    ReduceLinesAppend(u, before, [line]);
    var nothing: seq<Option<StreamEvent>> := [None];
    assert Decoded([line]) == nothing by { assert [line][..0] == []; }
    assert DeliverAll(ReduceLines(u, before), nothing) == ReduceLines(u, before) by {
      assert nothing[..0] == [];
    }
    ReduceLinesAppend(u, before, after);
  }

  lemma {:induction false} ReduceEventsAppend(u: Ui, a: seq<StreamEvent>, b: seq<StreamEvent>)
    ensures ReduceEvents(u, a + b) == ReduceEvents(ReduceEvents(u, a), b)
    decreases |b|
  {
    if b == [] {
      assert a + b == a;
    } else {
      assert (a + b)[..|a + b| - 1] == a + b[..|b| - 1];
      ReduceEventsAppend(u, a, b[..|b| - 1]);
    }
  }

  /** A delivered `done` or `error`. */
  predicate Terminal(d: Option<StreamEvent>)
  {
    d == Some(Done) || (d.Some? && d.value.Error?)
  }

  /**
   * Only `done` and `error` re-enable the generate button: deliveries that
   * are neither leave it as it was.
   */
  lemma {:induction false} BusyUntilTerminal(u: Ui, ds: seq<Option<StreamEvent>>)
    requires forall k :: 0 <= k < |ds| ==> !Terminal(ds[k])
    ensures DeliverAll(u, ds).busy == u.busy
    decreases |ds|
  {
    if ds != [] {
      BusyUntilTerminal(u, ds[..|ds| - 1]);
    }
  }

  /**
   * Without a `sessionId` in any event the session stays unset, and a hidden
   * download section is never shown.
   */
  lemma {:induction false} NoSessionWithoutId(u: Ui, es: seq<StreamEvent>)
    requires u.sessionId.None? && !u.downloadVisible
    requires forall k :: 0 <= k < |es| ==> !(es[k].Partial? || es[k].Completed?) || es[k].sessionId.None?
    ensures ReduceEvents(u, es).sessionId.None? && !ReduceEvents(u, es).downloadVisible
    decreases |es|
  {
    if es != [] {
      NoSessionWithoutId(u, es[..|es| - 1]);
    }
  }

  // ---------------------------------------------------------------- reassembling chunks into lines

  /** What the chunk loop has dispatched so far and what it keeps in `buffer`. */
  datatype Reassembly = Reassembly(lines: seq<string>, rest: string)

  /** Chunks fed one at a time: each is appended to the kept fragment, which is then split. */
  function Feed(chunks: seq<string>): Reassembly
  {
    if chunks == [] then Reassembly([], [])
    else
      var r := Feed(chunks[..|chunks| - 1]);
      var buffer := r.rest + chunks[|chunks| - 1];
      Reassembly(r.lines + CompleteLines(buffer), Fragment(buffer))
  }

  /**
   * Chunk-boundary invariance: feeding chunks one at a time dispatches the
   * lines, and keeps the fragment, of their concatenation split in one go.
   */
  lemma {:induction false} FeedIsOneGo(chunks: seq<string>)
    ensures Feed(chunks) == Reassembly(CompleteLines(Concat(chunks)), Fragment(Concat(chunks)))
    decreases |chunks|
  {
    if chunks == [] {
      assert Split([]) == [[]];
    } else {
      var init, c := chunks[..|chunks| - 1], chunks[|chunks| - 1];
      FeedIsOneGo(init);
      FeedStep(Concat(init), c);
    }
  }

  /**
   * Associativity of `+`, as a lemma of its own: calling it in a loop body
   * keeps the step out of the loop's proof obligation, which is cheaper
   * for the solver than asserting it inline.
   */
  lemma AppendAssociates<T>(a: seq<T>, b: seq<T>, c: seq<T>)
    ensures (a + b) + c == a + (b + c)
  {
  }

  lemma ConcatSnoc(chunks: seq<string>, k: nat)
    requires k < |chunks|
    ensures Concat(chunks[..k + 1]) == Concat(chunks[..k]) + chunks[k]
  {
    assert chunks[..k + 1][..k] == chunks[..k];
  }

  /** Two chunkings of the same text dispatch the same lines and keep the same fragment. */
  lemma ChunkBoundaryInvariance(c1: seq<string>, c2: seq<string>)
    requires Concat(c1) == Concat(c2)
    ensures Feed(c1) == Feed(c2)
  {
    FeedIsOneGo(c1);
    FeedIsOneGo(c2);
  }

  // ---------------------------------------------------------------- one generation

  /** How the request of `generateImage` turns out. */
  datatype FetchOutcome =
    | FetchFailed(reason: string)                                // `fetch` rejects
    | HttpError(status: int)                                     // `!response.ok`
    | Stream(chunks: seq<string>, readFailure: Option<string>)   // decoded chunks, then `done` or a failing `read`

  /** The lines a generation dispatches. */
  function SessionLines(fetch: FetchOutcome): seq<string>
  {
    if fetch.Stream? then CompleteLines(Concat(fetch.chunks)) else []
  }

  /** The state after `generateImage` with a non-empty prompt. */
  function Session(u: Ui, fetch: FetchOutcome): Ui
  {
    var s := Started(u);
    match fetch
    case Stream(chunks, failure) =>
      var r := ReduceLines(s, SessionLines(fetch));
      if failure.Some? then Reset(r) else r
    case _ => Reset(s)
  }

  /**
   * A stream that ends without delivering `done` or `error` leaves the
   * generate button disabled: nothing after the loop re-enables it.
   */
  lemma StuckWithoutTerminal(u: Ui, chunks: seq<string>)
    requires forall k :: 0 <= k < |CompleteLines(Concat(chunks))| ==> !Terminal(LineEvent(CompleteLines(Concat(chunks))[k]))
    ensures Session(u, Stream(chunks, None)).busy
  {
    var lines := CompleteLines(Concat(chunks));
    DecodedIndex(lines);
    BusyUntilTerminal(Started(u), Decoded(lines));
  }

  /** A failed request, a non-ok response or a failing read ends in the state `resetUI` leaves. */
  lemma FailureResets(u: Ui, fetch: FetchOutcome)
    requires !fetch.Stream? || fetch.readFailure.Some?
    ensures var r := Session(u, fetch);
      !r.busy && r.stage == 0 && r.sessionId.None? && !r.containerVisible && !r.downloadVisible
  {
  }

  // ---------------------------------------------------------------- selections and the download link

  datatype FileInfo = FileInfo(mimeType: string, size: nat)

  predicate IsImageFile(f: FileInfo)
  {
    StartsWith(f.mimeType, "image/") && f.size <= ImageLimit
  }

  predicate IsVideoFile(f: FileInfo)
  {
    StartsWith(f.mimeType, "video/") && f.size <= VideoLimit
  }

  /** The generation prompt last sent, the chosen files and the two analyze buttons. */
  datatype Form = Form(
    prompt: string,
    selectedFile: Option<FileInfo>,
    selectedVideoFile: Option<FileInfo>,
    analyzeDisabled: bool,
    analyzeVideoDisabled: bool)

  /** Only files that passed their guard are ever selected. */
  predicate FormValid(i: Form)
  {
    (i.selectedFile.Some? ==> IsImageFile(i.selectedFile.value)) &&
    (i.selectedVideoFile.Some? ==> IsVideoFile(i.selectedVideoFile.value))
  }

  /** `handleFileSelect` on the inputs. */
  function SelectImage(i: Form, file: Option<FileInfo>): Form
  {
    if file.Some? && IsImageFile(file.value) then i.(selectedFile := file, analyzeDisabled := false) else i
  }

  /** `handleVideoFileSelect` on the inputs. */
  function SelectVideo(i: Form, file: Option<FileInfo>): Form
  {
    if file.Some? && IsVideoFile(file.value) then i.(selectedVideoFile := file, analyzeVideoDisabled := false) else i
  }

  /**
   * Selecting keeps the inputs valid; a file is taken, and its analyze button
   * enabled, exactly when it passes the guard; a refused file changes nothing.
   */
  lemma SelectionGuards(i: Form, file: Option<FileInfo>)
    requires FormValid(i)
    ensures FormValid(SelectImage(i, file)) && FormValid(SelectVideo(i, file))
    ensures SelectImage(i, file).selectedFile == file <==> (file.Some? && IsImageFile(file.value)) || i.selectedFile == file
    ensures file.Some? && IsImageFile(file.value) ==> !SelectImage(i, file).analyzeDisabled
    ensures !(file.Some? && IsImageFile(file.value)) ==> SelectImage(i, file) == i
    ensures SelectVideo(i, file).selectedVideoFile == file <==> (file.Some? && IsVideoFile(file.value)) || i.selectedVideoFile == file
    ensures file.Some? && IsVideoFile(file.value) ==> !SelectVideo(i, file).analyzeVideoDisabled
    ensures !(file.Some? && IsVideoFile(file.value)) ==> SelectVideo(i, file) == i
  {
  }

  /** The size bounds are inclusive: exactly the limit is accepted, one byte more is refused. */
  lemma SizeBoundaries(t: string)
    ensures IsImageFile(FileInfo("image/" + t, 10485760)) && !IsImageFile(FileInfo("image/" + t, 10485761))
    ensures IsVideoFile(FileInfo("video/" + t, 52428800)) && !IsVideoFile(FileInfo("video/" + t, 52428801))
    ensures !IsImageFile(FileInfo("video/" + t, 0)) && !IsVideoFile(FileInfo("image/" + t, 0))
  {
    assert ("image/" + t)[..6] == "image/";
    assert ("video/" + t)[..6] == "video/";
  }

  /** The anchor `downloadImage` builds and clicks. */
  datatype DownloadLink = DownloadLink(href: string, filename: string)

  function LinkFor(id: string): (link: DownloadLink)
    ensures |link.href| == |id| + 10 && |link.filename| == |id| + 17
    ensures StartsWith(link.href, "/download/") && link.href[10..] == id
    ensures StartsWith(link.filename, "ai_generated_") && link.filename[13..|link.filename| - 4] == id
    ensures link.filename[|link.filename| - 4..] == ".png"
  {
    DownloadLink("/download/" + id, "ai_generated_" + id + ".png")
  }

  /** Distinct sessions get distinct links. */
  lemma LinkForInjective(a: string, b: string)
    requires LinkFor(a) == LinkFor(b)
    ensures a == b
  {
    assert LinkFor(a).href[10..] == a;
  }

  /** What the page's markup sets before the script runs. */
  datatype Page = Page(generateDisabled: bool, containerVisible: bool, downloadVisible: bool, analyzeDisabled: bool, analyzeVideoDisabled: bool)

  // ---------------------------------------------------------------- the object

  class StreamImageGenerator {
    var buffer: string
    var currentStage: int
    var currentSessionId: Option<string>
    var currentPrompt: string
    var selectedFile: Option<FileInfo>
    var selectedVideoFile: Option<FileInfo>
    /** `generateBtn.disabled` */
    var generateDisabled: bool
    /** `imageContainer` without the `hidden` class */
    var containerVisible: bool
    /** `downloadSection` without the `hidden` class */
    var downloadVisible: bool
    /** `analyzeBtn.disabled` */
    var analyzeDisabled: bool
    /** `analyzeVideoBtn.disabled` */
    var analyzeVideoDisabled: bool
    /** Every line `processBuffer` has taken off the buffer, in order. */
    ghost var dispatched: seq<string>

    function State(): Ui
      reads this
    {
      Ui(currentStage, currentSessionId, generateDisabled, containerVisible, downloadVisible)
    }

    function Inputs(): Form
      reads this
    {
      Form(currentPrompt, selectedFile, selectedVideoFile, analyzeDisabled, analyzeVideoDisabled)
    }

    constructor(page: Page)
      ensures buffer == [] && dispatched == []
      ensures State() == Ui(0, None, page.generateDisabled, page.containerVisible, page.downloadVisible)
      ensures Inputs() == Form([], None, None, page.analyzeDisabled, page.analyzeVideoDisabled)
      ensures FormValid(Inputs())
    {
      buffer := [];
      currentStage := 0;
      currentSessionId := None;
      currentPrompt := [];
      selectedFile := None;
      selectedVideoFile := None;
      generateDisabled := page.generateDisabled;
      containerVisible := page.containerVisible;
      downloadVisible := page.downloadVisible;
      analyzeDisabled := page.analyzeDisabled;
      analyzeVideoDisabled := page.analyzeVideoDisabled;
      dispatched := [];
    }

    method UpdatePartialImage(index: int, imageBase64: string)
      modifies this
      ensures State() == old(State()).(stage := index + 1)
      ensures buffer == old(buffer) && Inputs() == old(Inputs()) && dispatched == old(dispatched)
    {
      currentStage := index + 1;
    }

    method ShowFinalImage(imageBase64: Option<string>)
      modifies this
      ensures State() == old(State()).(stage := TotalStages)
      ensures buffer == old(buffer) && Inputs() == old(Inputs()) && dispatched == old(dispatched)
    {
      currentStage := TotalStages;
    }

    /** Reveals the download section when a session id is known; never hides it. */
    method ShowDownloadButton()
      modifies this
      ensures State() == old(State()).(downloadVisible := old(downloadVisible) || Truthy(currentSessionId))
      ensures buffer == old(buffer) && Inputs() == old(Inputs()) && dispatched == old(dispatched)
    {
      if Truthy(currentSessionId) {
        downloadVisible := true;
      }
    }

    method HideDownloadButton()
      modifies this
      ensures State() == old(State()).(downloadVisible := false)
      ensures buffer == old(buffer) && Inputs() == old(Inputs()) && dispatched == old(dispatched)
    {
      downloadVisible := false;
    }

    method StartGeneration()
      modifies this
      ensures State() == Started(old(State()))
      ensures buffer == old(buffer) && Inputs() == old(Inputs()) && dispatched == old(dispatched)
    {
      generateDisabled := true;
      currentStage := 0;
      currentSessionId := None;
      containerVisible := true;
      HideDownloadButton();
    }

    method FinishGeneration()
      modifies this
      ensures State() == old(State()).(busy := false)
      ensures buffer == old(buffer) && Inputs() == old(Inputs()) && dispatched == old(dispatched)
    {
      generateDisabled := false;
    }

    method ResetUI()
      modifies this
      ensures State() == Reset(old(State()))
      ensures buffer == old(buffer) && Inputs() == old(Inputs()) && dispatched == old(dispatched)
    {
      generateDisabled := false;
      containerVisible := false;
      HideDownloadButton();
      currentStage := 0;
      currentSessionId := None;
    }

    /** The `switch` on `data.type`; an object none of its cases reads changes nothing. */
    method HandleStreamData(data: Json.Object)
      modifies this
      ensures State() == Deliver(old(State()), FromObject(data))
      ensures buffer == old(buffer) && Inputs() == old(Inputs()) && dispatched == old(dispatched)
    {
      var event := FromObject(data);
      if event.None? {
        return;
      }
      match event.value
      case Partial(index, image, sessionId) =>
        UpdatePartialImage(index, image);
        if Truthy(sessionId) {
          currentSessionId := sessionId;
        }
      case Completed(image, sessionId) =>
        ShowFinalImage(image);
        if Truthy(sessionId) {
          currentSessionId := sessionId;
        }
        ShowDownloadButton();
      case Done =>
        FinishGeneration();
      case Error(_) =>
        ResetUI();
    }

    /**
     * Takes every complete line off the buffer and applies it; the trailing
     * fragment stays.  The new buffer holds no line feed, and the dispatched
     * lines, each with its line feed, followed by the new buffer, are the old
     * buffer.
     */
    method ProcessBuffer()
      modifies this
      ensures buffer == Fragment(old(buffer)) && '\n' !in buffer
      ensures dispatched == old(dispatched) + CompleteLines(old(buffer))
      ensures Terminated(CompleteLines(old(buffer))) + buffer == old(buffer)
      ensures State() == ReduceLines(old(State()), CompleteLines(old(buffer)))
      ensures Inputs() == old(Inputs())
    {
      LinesReassemble(buffer);
      var lines := Split(buffer);
      buffer := lines[|lines| - 1];
      lines := lines[..|lines| - 1];
      ghost var u0, d0 := State(), dispatched;
      for k := 0 to |lines|
        invariant dispatched == d0 + lines[..k]
        invariant State() == ReduceLines(u0, lines[..k])
        invariant buffer == Fragment(old(buffer)) && Inputs() == old(Inputs())
      {
        ReduceLinesAppend(u0, lines[..k], [lines[k]]);
        assert lines[..k + 1] == lines[..k] + [lines[k]];
        DispatchLine(lines[k]);
      }
      assert lines[..|lines|] == lines;
    }

    /**
     * The body of the `processBuffer` loop for one line: a line that is not a
     * `data: ` line with a non-empty payload is skipped, and so is one whose
     * payload fails to parse (the exception is caught).
     */
    method DispatchLine(line: string)
      modifies this
      ensures State() == Deliver(old(State()), LineEvent(line))
      ensures dispatched == old(dispatched) + [line]
      ensures buffer == old(buffer)
      ensures Inputs() == old(Inputs())
    {
      dispatched := dispatched + [line];
      var jsonStr := Payload(line);
      if jsonStr.Some? {
        var data := Json.Parse(jsonStr.value);
        if data.Some? {
          assert LineEvent(line) == FromObject(data.value);
          HandleStreamData(data.value);
        }
      }
    }

    /**
     * `generateImage` for the prompt field's value and the way its request
     * turns out.  A prompt that trims to nothing changes nothing; otherwise
     * the generation starts, the decoded chunks go through the buffer one at
     * a time, and a failure anywhere resets the page.
     */
    method GenerateImage(promptValue: string, fetch: FetchOutcome)
      modifies this
      ensures Trim(promptValue) == [] ==>
        State() == old(State()) && Inputs() == old(Inputs()) && buffer == old(buffer) && dispatched == old(dispatched)
      ensures Trim(promptValue) != [] ==>
        State() == Session(old(State()), fetch) &&
        Inputs() == old(Inputs()).(prompt := Trim(promptValue)) &&
        dispatched == old(dispatched) + SessionLines(fetch) &&
        buffer == if fetch.Stream? then Fragment(Concat(fetch.chunks)) else old(buffer)
    {
      var prompt := Trim(promptValue);
      if prompt == [] {
        return;
      }
      currentPrompt := prompt;
      StartGeneration();
      if !fetch.Stream? {
        ResetUI();
        return;
      }
      ReadStream(fetch.chunks);
      if fetch.readFailure.Some? {
        ResetUI();
      }
    }

    /**
     * The read loop of `generateImage`: the buffer is emptied, then each
     * decoded chunk is appended to it and the buffer processed.  The lines
     * dispatched, and the fragment kept, are those of all chunks joined,
     * however the text was cut into chunks.
     */
    method ReadStream(chunks: seq<string>)
      modifies this
      ensures buffer == Fragment(Concat(chunks))
      ensures dispatched == old(dispatched) + CompleteLines(Concat(chunks))
      ensures Feed(chunks) == Reassembly(dispatched[|old(dispatched)|..], buffer)
      ensures State() == ReduceLines(old(State()), CompleteLines(Concat(chunks)))
      ensures Inputs() == old(Inputs())
    {
      buffer := [];
      var k := 0;
      assert Split([]) == [[]];
      while k < |chunks|
        invariant 0 <= k <= |chunks|
        invariant buffer == Fragment(Concat(chunks[..k]))
        invariant dispatched == old(dispatched) + CompleteLines(Concat(chunks[..k]))
        invariant State() == ReduceLines(old(State()), CompleteLines(Concat(chunks[..k])))
        invariant Inputs() == old(Inputs())
      {
        ghost var before, text := old(dispatched), Concat(chunks[..k]);
        ghost var fed, added := CompleteLines(text), CompleteLines(buffer + chunks[k]);
        ConcatSnoc(chunks, k);
        FeedStep(text, chunks[k]);
        ReduceLinesAppend(old(State()), fed, added);
        buffer := buffer + chunks[k];
        ProcessBuffer();
        AppendAssociates(before, fed, added);
        k := k + 1;
      }
      assert chunks[..k] == chunks;
      FeedIsOneGo(chunks);
      assert dispatched[|old(dispatched)|..] == CompleteLines(Concat(chunks));
    }

    /** The link `downloadImage` clicks, or none when no session id is known. */
    method DownloadImage() returns (link: Option<DownloadLink>)
      ensures link.None? <==> !Truthy(currentSessionId)
      ensures link.Some? ==> link.value == LinkFor(currentSessionId.value)
    {
      if !Truthy(currentSessionId) {
        return None;
      }
      var id := currentSessionId.value;
      return Some(DownloadLink("/download/" + id, "ai_generated_" + id + ".png"));
    }

    method HandleFileSelect(file: Option<FileInfo>)
      modifies this
      ensures Inputs() == SelectImage(old(Inputs()), file)
      ensures State() == old(State()) && buffer == old(buffer) && dispatched == old(dispatched)
    {
      if file.None? {
        return;
      }
      if !StartsWith(file.value.mimeType, "image/") {
        return;
      }
      if file.value.size > 10 * 1024 * 1024 {
        return;
      }
      selectedFile := file;
      analyzeDisabled := false;
    }

    method HandleVideoFileSelect(file: Option<FileInfo>)
      modifies this
      ensures Inputs() == SelectVideo(old(Inputs()), file)
      ensures State() == old(State()) && buffer == old(buffer) && dispatched == old(dispatched)
    {
      if file.None? {
        return;
      }
      if !StartsWith(file.value.mimeType, "video/") {
        return;
      }
      if file.value.size > 50 * 1024 * 1024 {
        return;
      }
      selectedVideoFile := file;
      analyzeVideoDisabled := false;
    }
  }
}

/**
 * The event stream between the relay and the browser: the four events, the
 * object literal the relay serialises for each, the `data: ` record it
 * writes (Server-sent events, section 9.2 of the WHATWG HTML standard), and
 * how the client turns one received line back into an event.
 */
module Sse {
  import opened Wrappers
  import opened Text
  import opened Json

  /** An event as it crosses the wire; `sessionId` is read by the client but never written by this relay. */
  datatype StreamEvent =
    | Partial(index: int, image: string, sessionId: Option<string>)
    | Completed(finalImage: Option<string>, sessionId: Option<string>)
    | Done
    | Error(message: string)

  function SessionMember(sessionId: Option<string>): Json.Object
  {
    match sessionId
    case None => []
    case Some(id) => [("sessionId", Json.Str(id))]
  }

  /** The object literal the relay hands to `JSON.stringify` for each event. */
  function ToObject(e: StreamEvent): Json.Object
  {
    match e
    case Partial(i, img, sid) =>
      [("type", Json.Str("partial")), ("index", Json.Int(i)), ("image", Json.Str(img))] + SessionMember(sid)
    case Completed(img, sid) =>
      [("type", Json.Str("completed")), ("image", if img.Some? then Json.Str(img.value) else Json.Null)] + SessionMember(sid)
    case Done => [("type", Json.Str("done"))]
    case Error(m) => [("type", Json.Str("error")), ("message", Json.Str(m))]
  }

  /** The line of a record that carries the event. */
  function DataLine(e: StreamEvent): string
  {
    "data: " + Json.Stringify(ToObject(e))
  }

  /** One record as `res.write` sends it: the data line and a blank line. */
  function Record(e: StreamEvent): string
  {
    DataLine(e) + "\n\n"
  }

  /** The records of a sequence of events, in order. */
  function Records(es: seq<StreamEvent>): seq<string>
  {
    if es == [] then [] else Records(es[..|es| - 1]) + [Record(es[|es| - 1])]
  }

  // ---------------------------------------------------------------- client side

  function StringField(o: Json.Object, key: string): Option<string>
  {
    match Json.Lookup(o, key)
    case Some(Str(s)) => Some(s)
    case _ => None
  }

  /** A `partial` event with the given index and the other fields read by name. */
  function PartialOf(o: Json.Object, index: int): StreamEvent
  {
    var img := StringField(o, "image");
    Partial(index, if img.Some? then img.value else "", StringField(o, "sessionId"))
  }

  /**
   * How `handleStreamData` reads a parsed object: the `type` selects the
   * case, other fields are read by name.  `None` for an object none of the
   * four cases handles.  A `null` index is read as 0, since `null + 1` is 1
   * in JavaScript, which is the stage index 0 gives.
   */
  function FromObject(o: Json.Object): Option<StreamEvent>
  {
    match StringField(o, "type")
    case Some("partial") =>
      (match Json.Lookup(o, "index")
       case Some(Int(i)) => Some(PartialOf(o, i))
       case Some(Null) => Some(PartialOf(o, 0))
       case _ => None)
    case Some("completed") => Some(Completed(StringField(o, "image"), StringField(o, "sessionId")))
    case Some("done") => Some(Done)
    case Some("error") =>
      var m := StringField(o, "message");
      Some(Error(if m.Some? then m.value else ""))
    case _ => None
  }

  /** The JSON text of a received line: its trimmed form must start with `data: `; the untrimmed line loses six characters and is trimmed; empty text is skipped. */
  function Payload(line: string): Option<string>
  {
    if StartsWith(Trim(line), "data: ") then
      var json := Trim(Slice(line, 6));
      if json != [] then Some(json) else None
    else None
  }

  /** The event one dispatched line delivers to `handleStreamData`, if any; a parse failure delivers none. */
  function LineEvent(line: string): Option<StreamEvent>
  {
    match Payload(line)
    case None => None
    case Some(json) =>
      match Json.Parse(json)
      case None => None
      case Some(o) => FromObject(o)
  }

  // ---------------------------------------------------------------- round trip

  /** The session member, when there is one, is the last member, and it hides no other key. */
  lemma LookupWithSession(o: Json.Object, sid: Option<string>, key: string)
    ensures key != "sessionId" ==> Json.Lookup(o + SessionMember(sid), key) == Json.Lookup(o, key)
    ensures sid.Some? ==> StringField(o + SessionMember(sid), "sessionId") == sid
    ensures sid.None? ==> o + SessionMember(sid) == o
  {
    if sid.Some? {
      var full := o + SessionMember(sid);
      assert full[..|full| - 1] == o;
    } else {
      assert o + SessionMember(sid) == o;
    }
  }

  lemma ObjectRoundTrip(e: StreamEvent)
    ensures FromObject(ToObject(e)) == Some(e)
  {
    match e
    case Partial(i, img, sid) =>
      var base: Json.Object := [("type", Str("partial")), ("index", Int(i)), ("image", Str(img))];
      Json.LookupFind(base, "type", 0);
      Json.LookupFind(base, "index", 1);
      Json.LookupFind(base, "image", 2);
      Json.LookupAbsent(base, "sessionId");
      LookupWithSession(base, sid, "type");
      LookupWithSession(base, sid, "index");
      LookupWithSession(base, sid, "image");
      LookupWithSession(base, sid, "sessionId");
      var full := base + SessionMember(sid);
      assert StringField(full, "type") == Some("partial");
      assert Json.Lookup(full, "index") == Some(Int(i));
      assert StringField(full, "image") == Some(img);
      assert StringField(full, "sessionId") == sid;
    case Completed(img, sid) =>
      var base: Json.Object := [("type", Str("completed")), ("image", if img.Some? then Str(img.value) else Null)];
      Json.LookupFind(base, "type", 0);
      Json.LookupFind(base, "image", 1);
      Json.LookupAbsent(base, "sessionId");
      LookupWithSession(base, sid, "type");
      LookupWithSession(base, sid, "image");
      LookupWithSession(base, sid, "sessionId");
      var full := base + SessionMember(sid);
      assert StringField(full, "type") == Some("completed");
      assert StringField(full, "image") == img;
      assert StringField(full, "sessionId") == sid;
    case Done =>
    case Error(m) =>
      var base: Json.Object := [("type", Str("error")), ("message", Str(m))];
      Json.LookupFind(base, "type", 0);
      Json.LookupFind(base, "message", 1);
  }

  /** A `data: ` line whose JSON text has no space at either end yields exactly that text. */
  lemma PayloadOf(j: string)
    requires j != [] && !IsSpace(j[0]) && !IsSpace(j[|j| - 1])
    ensures Payload("data: " + j) == Some(j)
  {
    var line := "data: " + j;
    assert line[0] == 'd' && line[|line| - 1] == j[|j| - 1];
    TrimUnchanged(line);
    assert line[..6] == "data: ";
    assert Slice(line, 6) == j;
    TrimUnchanged(j);
  }

  /** A `data: ` line carrying the text of an object delivers what that object reads as. */
  lemma LineOfJson(j: string, o: Json.Object)
    requires j != [] && !IsSpace(j[0]) && !IsSpace(j[|j| - 1])
    requires Json.Parse(j) == Some(o)
    ensures LineEvent("data: " + j) == FromObject(o)
  {
    PayloadOf(j);
  }

  /** The data line of an object's text delivers what the object reads as. */
  lemma DataLineDelivers(o: Json.Object)
    ensures LineEvent("data: " + Json.Stringify(o)) == FromObject(o)
  {
    var j := Json.Stringify(o);
    Json.StringifyShape(o);
    Json.ParseStringify(o);
    LineOfJson(j, o);
  }

  /** The data line of a record, read by the client, gives back the event. */
  lemma DataLineRoundTrip(e: StreamEvent)
    ensures LineEvent(DataLine(e)) == Some(e)
  {
    DataLineDelivers(ToObject(e));
    ObjectRoundTrip(e);
  }

  /** The blank separator line delivers nothing. */
  lemma BlankLineIgnored()
    ensures LineEvent([]) == None
  {
    assert Trim([]) == [];
  }

  /** A record splits into its data line and one blank line, with nothing left over. */
  lemma RecordLines(e: StreamEvent)
    ensures CompleteLines(Record(e)) == [DataLine(e), []]
    ensures Fragment(Record(e)) == []
  {
    var j := Json.Stringify(ToObject(e));
    Json.StringifyShape(ToObject(e));
    assert '\n' !in "data: ";
    assert '\n' !in DataLine(e);
    LineThenBlank(DataLine(e));
  }

  /** The lines a client splits the records of `es` into: each data line followed by a blank line. */
  function WireLines(es: seq<StreamEvent>): seq<string>
  {
    if es == [] then [] else WireLines(es[..|es| - 1]) + [DataLine(es[|es| - 1]), []]
  }

  /** Whatever precedes them, the records of `es` leave no fragment and dispatch exactly `WireLines(es)`. */
  lemma {:induction false} RecordsLines(es: seq<StreamEvent>)
    ensures CompleteLines(Concat(Records(es))) == WireLines(es)
    ensures Fragment(Concat(Records(es))) == []
    decreases |es|
  {
    if es == [] {
      assert Concat(Records(es)) == [];
    } else {
      var init, last := es[..|es| - 1], es[|es| - 1];
      var rs := Records(es);
      assert rs[..|rs| - 1] == Records(init) && rs[|rs| - 1] == Record(last);
      var prefix := Concat(Records(init));
      assert Concat(rs) == prefix + Record(last);
      RecordsLines(init);
      FeedStep(prefix, Record(last));
      assert Fragment(prefix) + Record(last) == Record(last);
      RecordLines(last);
    }
  }
}

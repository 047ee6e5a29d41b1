/** The order stream over HTTP: printing events, reading the id a client comes back with, and one
    connection from request to end (src/orders/orders.controller.ts:50-95, 127-136). */
module Sse {
  import opened Wrappers
  import opened Decimal
  import opened OrderEvents
  import opened EventStream
  import opened EventJson

  const SSE_RETRY_MS: nat := 1000

  // ---------------------------------------------------------------- the stream

  function Block(id: string, json: string): string {
    "id: " + id + "\nevent: " + EVENT_NAME + "\ndata: " + json + "\n\n"
  }

  const EVENT_NAME := "order.status"

  const PING := ": ping\n\n"

  function Opening(): string {
    "retry: " + Text(SSE_RETRY_MS) + "\n\n"
  }

  /** What the handler writes after the opening: events, by id and JSON text, and heartbeats at any
      time between. */
  datatype Chunk = Event(id: string, json: string) | Ping

  function ChunkOf(e: StatusEvent): Chunk {
    Event(Text(e.id), Stringify(e))
  }

  /** What a client will read in this chunk. */
  predicate Carries(chunk: Chunk, event: StatusEvent) {
    chunk.Event? && chunk.id == Text(event.id) && ParseEvent(chunk.json) == Some(event)
  }

  lemma ChunkCarries(event: StatusEvent)
    ensures Carries(ChunkOf(event), event)
  {
    EventIsRead(event);
  }

  function ChunksOf(events: seq<StatusEvent>): seq<Chunk> {
    seq(|events|, i requires 0 <= i < |events| => ChunkOf(events[i]))
  }

  function Written(chunk: Chunk): string {
    match chunk
    case Event(id, json) => Block(id, json)
    case Ping => PING
  }

  function Render(chunks: seq<Chunk>): string {
    if chunks == [] then "" else Written(chunks[0]) + Render(chunks[1..])
  }

  /** Line breaks would end a field early; an id with NUL is ignored. */
  predicate Printable(chunk: Chunk) {
    chunk.Event? ==> OneLine(chunk.id) && '\0' !in chunk.id && OneLine(chunk.json)
  }

  predicate AllPrintable(chunks: seq<Chunk>) {
    forall i :: 0 <= i < |chunks| ==> Printable(chunks[i])
  }

  /** Whatever an event holds. */
  lemma EventsArePrintable(e: StatusEvent)
    ensures Printable(ChunkOf(e))
  {
    TextIsOneLine(e.id);
    StringifyIsOneLine(e);
  }

  /** What is to arrive. */
  function MessagesOf(chunks: seq<Chunk>): seq<Message> {
    if chunks == [] then []
    else if chunks[0].Ping? then MessagesOf(chunks[1..])
    else [Message(EVENT_NAME, chunks[0].json, chunks[0].id)] + MessagesOf(chunks[1..])
  }

  /** The id of the last event among them; `before` if there is none. */
  function LastId(chunks: seq<Chunk>, before: string): string {
    if chunks == [] then before
    else LastId(chunks[1..], if chunks[0].Event? then chunks[0].id else before)
  }

  /** Between blocks: nothing half read, and the ids agree. */
  predicate AtRest(r: Reader) {
    r.data == "" && r.eventType == "" && r.lastEventId == r.idBuffer
  }

  /** What is written of a chunk, line by line. */
  function LinesOf(chunk: Chunk): seq<string> {
    match chunk
    case Event(id, json) => [FieldLine("id", id), FieldLine("event", EVENT_NAME), FieldLine("data", json), ""]
    case Ping => [": ping", ""]
  }

  function AllLines(chunks: seq<Chunk>): seq<string> {
    if chunks == [] then [] else LinesOf(chunks[0]) + AllLines(chunks[1..])
  }

  lemma BlockLines(id: string, json: string)
    ensures Block(id, json) == Join([FieldLine("id", id), FieldLine("event", EVENT_NAME), FieldLine("data", json), ""])
  {
    var a, b, c := FieldLine("id", id), FieldLine("event", EVENT_NAME), FieldLine("data", json);
    JoinFour(a, b, c, "");
    assert a + "\n" == "id: " + id + "\n";
    assert b + "\n" == "event: " + EVENT_NAME + "\n";
    assert c + "\n" + "\n" == "data: " + json + "\n\n";
  }

  lemma JoinFour(a: string, b: string, c: string, d: string)
    ensures Join([a, b, c, d]) == (a + "\n") + (b + "\n") + (c + "\n" + (d + "\n"))
  {
    JoinTwo(c, d);
    assert [a, b, c, d][1..] == [b, c, d] && [b, c, d][1..] == [c, d];
  }

  lemma JoinTwo(a: string, b: string)
    ensures Join([a, b]) == a + "\n" + (b + "\n")
  {
    assert [a, b][1..] == [b] && [b][1..] == [];
    assert Join([b]) == b + "\n" + Join([]) == b + "\n";
  }

  lemma WrittenIsItsLines(chunk: Chunk)
    requires Printable(chunk)
    ensures Written(chunk) == Join(LinesOf(chunk))
    ensures forall i :: 0 <= i < |LinesOf(chunk)| ==> OneLine(LinesOf(chunk)[i])
  {
    match chunk
    case Event(id, json) =>
      BlockLines(id, json);
      FieldLineIsOneLine("id", id);
      FieldLineIsOneLine("event", EVENT_NAME);
      FieldLineIsOneLine("data", json);
    case Ping => JoinTwo(": ping", "");
  }

  lemma {:induction false} JoinConcat(a: seq<string>, b: seq<string>)
    ensures Join(a + b) == Join(a) + Join(b)
  {
    if a == [] {
      assert a + b == b;
    } else {
      assert (a + b)[1..] == a[1..] + b;
      JoinConcat(a[1..], b);
    }
  }

  lemma {:induction false} RenderIsItsLines(chunks: seq<Chunk>)
    requires AllPrintable(chunks)
    ensures Render(chunks) == Join(AllLines(chunks))
    ensures forall i :: 0 <= i < |AllLines(chunks)| ==> OneLine(AllLines(chunks)[i])
  {
    if chunks != [] {
      WrittenIsItsLines(chunks[0]);
      RenderIsItsLines(chunks[1..]);
      JoinConcat(LinesOf(chunks[0]), AllLines(chunks[1..]));
    }
  }

  lemma {:induction false} FeedFour(r: Reader, a: string, b: string, c: string, d: string)
    ensures Feed(r, [a, b, c, d]) == ReadLine(ReadLine(ReadLine(ReadLine(r, a), b), c), d)
  {
    assert [a, b, c, d] == [a, b] + [c, d];
    FeedConcat(r, [a, b], [c, d]);
    FeedTwo(r, a, b);
    FeedTwo(Feed(r, [a, b]), c, d);
  }

  lemma {:induction false} FeedTwo(r: Reader, a: string, b: string)
    ensures Feed(r, [a, b]) == ReadLine(ReadLine(r, a), b)
  {
    assert [a, b][1..] == [b] && [b][1..] == [];
    assert Feed(ReadLine(r, a), [b]) == ReadLine(ReadLine(r, a), b);
  }

  function AfterEvent(r: Reader, id: string, json: string): Reader {
    r.(messages := r.messages + [Message(EVENT_NAME, json, id)], idBuffer := id, lastEventId := id)
  }

  lemma {:induction false} ReadEvent(r: Reader, id: string, json: string)
    requires AtRest(r) && '\0' !in id
    ensures Feed(r, [FieldLine("id", id), FieldLine("event", EVENT_NAME), FieldLine("data", json), ""])
      == AfterEvent(r, id, json)
  {
    FeedFour(r, FieldLine("id", id), FieldLine("event", EVENT_NAME), FieldLine("data", json), "");
    ReadFieldLine(r, "id", id);
    FieldEffects(r, id);
    var r1 := r.(idBuffer := id);
    ReadFieldLine(r1, "event", EVENT_NAME);
    FieldEffects(r1, EVENT_NAME);
    var r2 := r1.(eventType := EVENT_NAME);
    ReadFieldLine(r2, "data", json);
    FieldEffects(r2, json);
    DispatchOne(r2.(data := "" + json + "\n"), json);
  }

  lemma DispatchOne(r: Reader, json: string)
    requires r.data == "" + json + "\n" && r.eventType == EVENT_NAME
    ensures ReadLine(r, "") == r.(messages := r.messages + [Message(EVENT_NAME, json, r.idBuffer)],
                                  lastEventId := r.idBuffer, data := "", eventType := "")
  {
    assert r.data[|r.data| - 1] == '\n' && r.data[..|r.data| - 1] == json;
    assert EVENT_NAME[0] == 'o';
  }

  lemma {:induction false} ReadPing(r: Reader)
    requires AtRest(r)
    ensures Feed(r, [": ping", ""]) == r
  {
    FeedTwo(r, ": ping", "");
  }

  lemma {:induction false} ReadChunks(r: Reader, chunks: seq<Chunk>)
    requires AtRest(r) && AllPrintable(chunks)
    ensures var r' := Feed(r, AllLines(chunks));
      && AtRest(r') && r'.reconnectionMs == r.reconnectionMs
      && r'.messages == r.messages + MessagesOf(chunks)
      && r'.lastEventId == LastId(chunks, r.lastEventId)
    decreases |chunks|
  {
    if chunks != [] {
      FeedConcat(r, LinesOf(chunks[0]), AllLines(chunks[1..]));
      match chunks[0]
      case Event(id, json) =>
        assert Printable(chunks[0]);
        ReadEvent(r, id, json);
        ReadChunks(AfterEvent(r, id, json), chunks[1..]);
      case Ping =>
        ReadPing(r);
        ReadChunks(r, chunks[1..]);
    }
  }

  /** A reader at the start of a response; `idBuffer` is what its id buffer starts with. */
  function Fresh(idBuffer: string): Reader {
    Reader("", "", idBuffer, [], idBuffer, None)
  }

  lemma {:induction false} ReadRetry(r: Reader, ms: nat)
    requires r.data == "" && r.eventType == ""
    ensures Feed(r, [FieldLine("retry", Text(ms)), ""]) == r.(reconnectionMs := Some(ms), lastEventId := r.idBuffer)
  {
    FeedTwo(r, FieldLine("retry", Text(ms)), "");
    ValueOfText(ms);
    ReadFieldLine(r, "retry", Text(ms));
    FieldEffects(r, Text(ms));
  }

  lemma {:induction false} OpeningLines(ms: nat)
    ensures "retry: " + Text(ms) + "\n\n" == Join([FieldLine("retry", Text(ms)), ""])
    ensures OneLine(FieldLine("retry", Text(ms)))
  {
    JoinTwo(FieldLine("retry", Text(ms)), "");
    TextIsOneLine(ms);
    FieldLineIsOneLine("retry", Text(ms));
  }

  /** Reading a response back: exactly its events, in order, each with its own id; heartbeats
      dispatch nothing and keep the last event id; the client is told to come back after a second. */
  lemma {:induction false} StreamRoundTrip(chunks: seq<Chunk>, idBuffer: string)
    requires AllPrintable(chunks)
    ensures var r := Interpret(Fresh(idBuffer), Opening() + Render(chunks));
      && r.messages == MessagesOf(chunks)
      && r.lastEventId == LastId(chunks, idBuffer)
      && r.reconnectionMs == Some(SSE_RETRY_MS)
  {
    var opening := [FieldLine("retry", Text(SSE_RETRY_MS)), ""];
    OpeningLines(SSE_RETRY_MS);
    RenderIsItsLines(chunks);
    JoinConcat(opening, AllLines(chunks));
    LinesOfJoin(opening + AllLines(chunks));
    FeedConcat(Fresh(idBuffer), opening, AllLines(chunks));
    ReadRetry(Fresh(idBuffer), SSE_RETRY_MS);
    ReadChunks(Fresh(idBuffer).(reconnectionMs := Some(SSE_RETRY_MS)), chunks);
  }

  /** `body` is the response to which `chunks` were written. */
  predicate Prints(body: string, chunks: seq<Chunk>) {
    body == Opening() + Render(chunks) && AllPrintable(chunks)
  }

  /** The id of the last message shown; `before` if none was. */
  function LastShown(messages: seq<Message>, before: string): string {
    if messages == [] then before else messages[|messages| - 1].lastEventId
  }

  lemma {:induction false} PartOfChunk(r: Reader, chunk: Chunk, k: nat)
    requires k < |LinesOf(chunk)|
    ensures var r' := Feed(r, LinesOf(chunk)[..k]); r'.messages == r.messages && r'.lastEventId == r.lastEventId
  {
    FieldsShowNothing(r, LinesOf(chunk)[..k]);
  }

  /** After any number of lines the last event id is that of the last message. */
  lemma {:induction false} PartOfChunks(r: Reader, chunks: seq<Chunk>, k: nat, before: string)
    requires AtRest(r) && AllPrintable(chunks) && k <= |AllLines(chunks)|
    requires r.lastEventId == LastShown(r.messages, before)
    ensures var r' := Feed(r, AllLines(chunks)[..k]); r'.lastEventId == LastShown(r'.messages, before)
    decreases |chunks|
  {
    if chunks != [] {
      var first, rest := LinesOf(chunks[0]), AllLines(chunks[1..]);
      if k < |first| {
        assert (first + rest)[..k] == first[..k];
        PartOfChunk(r, chunks[0], k);
      } else {
        assert (first + rest)[..k] == first + rest[..k - |first|];
        FeedConcat(r, first, rest[..k - |first|]);
        match chunks[0]
        case Event(id, json) =>
          assert Printable(chunks[0]);
          ReadEvent(r, id, json);
          PartOfChunks(AfterEvent(r, id, json), chunks[1..], k - |first|, before);
        case Ping =>
          ReadPing(r);
          PartOfChunks(r, chunks[1..], k - |first|, before);
      }
    } else {
      assert AllLines(chunks)[..k] == [];
    }
  }

  lemma {:induction false} PartOfResponse(chunks: seq<Chunk>, idBuffer: string, k: nat)
    requires AllPrintable(chunks) && k <= 2 + |AllLines(chunks)|
    ensures var r := Feed(Fresh(idBuffer), ([FieldLine("retry", Text(SSE_RETRY_MS)), ""] + AllLines(chunks))[..k]);
      r.lastEventId == LastShown(r.messages, idBuffer)
  {
    var opening, rest := [FieldLine("retry", Text(SSE_RETRY_MS)), ""], AllLines(chunks);
    if k < 2 {
      assert (opening + rest)[..k] == opening[..k];
      FieldsShowNothing(Fresh(idBuffer), opening[..k]);
    } else {
      assert (opening + rest)[..k] == opening + rest[..k - 2];
      FeedConcat(Fresh(idBuffer), opening, rest[..k - 2]);
      ReadRetry(Fresh(idBuffer), SSE_RETRY_MS);
      PartOfChunks(Fresh(idBuffer).(reconnectionMs := Some(SSE_RETRY_MS)), chunks, k - 2, idBuffer);
    }
  }

  /** However much of a response arrives, the client has seen its first events and no others, and
      its last event id is the id of the last of them, or what its buffer began with. */
  lemma {:induction false} BrokenStream(body: string, chunks: seq<Chunk>, idBuffer: string, n: nat)
    requires Prints(body, chunks) && n <= |body|
    ensures var r := Interpret(Fresh(idBuffer), body[..n]);
      && r.messages <= MessagesOf(chunks)
      && r.lastEventId == LastShown(r.messages, idBuffer)
  {
    StreamRoundTrip(chunks, idBuffer);
    BrokenText(Fresh(idBuffer), body, n);
    var k := LinesArrived(body, chunks, n);
    PartOfResponse(chunks, idBuffer, k);
  }

  lemma LinesOfBody(body: string, lines: seq<string>, n: nat) returns (k: nat)
    requires (forall i :: 0 <= i < |lines| ==> OneLine(lines[i])) && body == Join(lines) && n <= |body|
    ensures k <= |lines| && Lines(body[..n]) == lines[..k]
  {
    if n < |body| {
      k := LinesOfPart(lines, n);
    } else {
      k := |lines|;
      assert body[..n] == body;
      LinesOfJoin(lines);
    }
  }

  lemma {:induction false} LinesArrived(body: string, chunks: seq<Chunk>, n: nat) returns (k: nat)
    requires Prints(body, chunks) && n <= |body|
    ensures k <= 2 + |AllLines(chunks)|
    ensures Lines(body[..n]) == ([FieldLine("retry", Text(SSE_RETRY_MS)), ""] + AllLines(chunks))[..k]
  {
    var opening := [FieldLine("retry", Text(SSE_RETRY_MS)), ""];
    OpeningLines(SSE_RETRY_MS);
    RenderIsItsLines(chunks);
    JoinConcat(opening, AllLines(chunks));
    k := LinesOfBody(body, opening + AllLines(chunks), n);
  }

  lemma BrokenText(r: Reader, body: string, n: nat)
    requires n <= |body|
    ensures Interpret(r, body[..n]).messages <= Interpret(r, body).messages
  {
    CutAnywhere(r, body[..n], body[n..]);
    assert body[..n] + body[n..] == body;
  }

  // ---------------------------------------------------------------- the id a client comes back with

  /** The white space of ECMAScript. */
  predicate IsSpace(c: char) {
    var u := c as int;
    9 <= u <= 13 || u == 0x20 || u == 0xA0 || u == 0x1680 || 0x2000 <= u <= 0x200A
    || u == 0x2028 || u == 0x2029 || u == 0x202F || u == 0x205F || u == 0x3000 || u == 0xFEFF
  }

  /** Tab to carriage return, and the spaces of Unicode. */
  lemma SpacesAre(c: char)
    ensures IsSpace(c) <==> c as int in {
      0x9, 0xA, 0xB, 0xC, 0xD, 0x20, 0xA0, 0x1680, 0x2000, 0x2001, 0x2002, 0x2003, 0x2004, 0x2005, 0x2006, 0x2007,
      0x2008, 0x2009, 0x200A, 0x2028, 0x2029, 0x202F, 0x205F, 0x3000, 0xFEFF}
  {
  }

  function SkipSpaces(s: string): string {
    if s != "" && IsSpace(s[0]) then SkipSpaces(s[1..]) else s
  }

  function Digits(s: string): (d: string)
    ensures AllDigits(d)
  {
    if s != "" && IsDigit(s[0]) then [s[0]] + Digits(s[1..]) else ""
  }

  /** Number.parseInt(s, 10); `None` is NaN. */
  function ParseInt(s: string): Option<int> {
    var t := SkipSpaces(s);
    var sign := if t != "" && t[0] == '-' then -1 else 1;
    var digits := Digits(if t != "" && (t[0] == '-' || t[0] == '+') then t[1..] else t);
    if digits == "" then None else Some(sign * Value(digits))
  }

  /** The header if there is one, else the query parameter. */
  function ParseEventId(raw: Option<string>): nat {
    match ParseInt(if raw.Some? then raw.value else "")
    case None => 0
    case Some(n) => if n > 0 then n else 0
  }

  lemma {:induction false} DigitsOf(digits: string, rest: string)
    requires AllDigits(digits) && (rest != "" ==> !IsDigit(rest[0]))
    ensures Digits(digits + rest) == digits
  {
    if digits != "" {
      assert (digits + rest)[1..] == digits[1..] + rest;
      DigitsOf(digits[1..], rest);
    } else {
      assert digits + rest == rest;
    }
  }

  lemma {:induction false} SkipSpacesOf(spaces: string, rest: string)
    requires forall i :: 0 <= i < |spaces| ==> IsSpace(spaces[i])
    requires rest != "" ==> !IsSpace(rest[0])
    ensures SkipSpaces(spaces + rest) == rest
  {
    if spaces != "" {
      assert (spaces + rest)[1..] == spaces[1..] + rest;
      SkipSpacesOf(spaces[1..], rest);
    } else {
      assert spaces + rest == rest;
    }
  }

  /** Spaces before a number and anything after it do not matter. */
  lemma {:induction false} NumberInText(spaces: string, digits: string, rest: string)
    requires forall i :: 0 <= i < |spaces| ==> IsSpace(spaces[i])
    requires digits != "" && AllDigits(digits) && (rest != "" ==> !IsDigit(rest[0]))
    ensures ParseEventId(Some(spaces + digits + rest)) == Value(digits)
  {
    var t := digits + rest;
    assert spaces + digits + rest == spaces + t;
    assert t[0] == digits[0] && IsDigit(t[0]);
    SkipSpacesOf(spaces, t);
    DigitsOf(digits, rest);
  }

  /** So does a plus sign; behind a minus sign there is no id. */
  lemma {:induction false} SignBeforeNumber(spaces: string, digits: string, rest: string)
    requires forall i :: 0 <= i < |spaces| ==> IsSpace(spaces[i])
    requires digits != "" && AllDigits(digits) && (rest != "" ==> !IsDigit(rest[0]))
    ensures ParseEventId(Some(spaces + ("+" + (digits + rest)))) == Value(digits)
    ensures ParseEventId(Some(spaces + ("-" + (digits + rest)))) == 0
  {
    var plus, minus := "+" + (digits + rest), "-" + (digits + rest);
    SkipSpacesOf(spaces, plus);
    SkipSpacesOf(spaces, minus);
    DigitsOf(digits, rest);
    assert plus[1..] == digits + rest && minus[1..] == digits + rest;
  }

  /** Reading an id undoes printing it. */
  lemma {:induction false} EventIdRoundTrip(id: nat)
    ensures ParseEventId(Some(Text(id))) == id
  {
    NumberInText("", Text(id), "");
    ValueOfText(id);
    assert "" + Text(id) + "" == Text(id);
  }

  /** What does not begin with a number, negative numbers and no id at all mean: from the start. */
  lemma {:induction false} GarbageMeansFromTheStart(raw: string)
    ensures ParseEventId(None) == 0
    ensures SkipSpaces(raw) == "" || !(IsDigit(SkipSpaces(raw)[0]) || SkipSpaces(raw)[0] == '+') ==>
      ParseEventId(Some(raw)) == 0
  {
    assert SkipSpaces("") == "";
  }

  // ---------------------------------------------------------------- coming back

  /** A client that has seen the events up to `lastEventId` and reports that id is sent exactly the
      events after it, provided it is at most a hundred behind. */
  lemma {:induction false} ComingBack(history: seq<StatusEvent>, lastEventId: nat)
    requires Numbered(history) && lastEventId <= |history|
    ensures Missed(history, ParseEventId(Some(Text(lastEventId)))) == history[lastEventId..]
      <==> |history| - lastEventId <= BUFFER_SIZE
  {
    EventIdRoundTrip(lastEventId);
    ReplayIsComplete(history, lastEventId);
  }

  /** The messages tell of these events: a client that reads their data has the events themselves,
      each under its number. */
  predicate Tell(messages: seq<Message>, events: seq<StatusEvent>) {
    && |messages| == |events|
    && forall i :: 0 <= i < |events| ==> Tells(messages[i], events[i])
  }

  predicate Tells(message: Message, event: StatusEvent) {
    && message.eventType == "order.status"
    && ParseEvent(message.data) == Some(event) && message.lastEventId == Text(event.id)
  }

  lemma {:induction false} MessagesTell(events: seq<StatusEvent>)
    ensures Tell(MessagesOf(ChunksOf(events)), events)
  {
    MessagesOfEvents(events);
    forall i | 0 <= i < |events| ensures Tells(MessagesOf(ChunksOf(events))[i], events[i]) {
      EventIsRead(events[i]);
    }
  }

  /** A whole response, heartbeats anywhere in it, read as the standard says: the events themselves,
      in order, and a second until the next attempt. */
  lemma {:induction false} EventsComeThrough(body: string, chunks: seq<Chunk>, events: seq<StatusEvent>, idBuffer: string)
    requires Prints(body, chunks) && MessagesOf(chunks) == MessagesOf(ChunksOf(events))
    ensures var r := Interpret(Fresh(idBuffer), body);
      && Tell(r.messages, events) && r.reconnectionMs == Some(1000)
      && r.lastEventId == LastId(chunks, idBuffer)
  {
    StreamRoundTrip(chunks, idBuffer);
    MessagesTell(events);
  }

  lemma {:induction false} MessagesOfEvents(events: seq<StatusEvent>)
    ensures var messages := MessagesOf(ChunksOf(events));
      && |messages| == |events|
      && forall i :: 0 <= i < |events| ==>
           messages[i] == Message(EVENT_NAME, Stringify(events[i]), Text(events[i].id))
  {
    if events != [] {
      assert ChunksOf(events)[1..] == ChunksOf(events[1..]);
      MessagesOfEvents(events[1..]);
    }
  }

  lemma FirstMessages(events: seq<StatusEvent>, messages: seq<Message>)
    requires messages <= MessagesOf(ChunksOf(events))
    ensures |messages| <= |events| && messages == MessagesOf(ChunksOf(events[..|messages|]))
  {
    MessagesOfEvents(events);
    MessagesOfEvents(events[..|messages|]);
  }

  lemma FirstOf(messages: seq<Message>, history: seq<StatusEvent>, seen: nat)
    requires seen <= |history| && messages <= MessagesOf(ChunksOf(history[seen..]))
    ensures seen + |messages| <= |history|
    ensures messages == MessagesOf(ChunksOf(history[seen..seen + |messages|]))
  {
    FirstMessages(history[seen..], messages);
    assert history[seen..][..|messages|] == history[seen..seen + |messages|];
  }

  lemma {:induction false} LastShownText(history: seq<StatusEvent>, seen: nat, now: nat, idBuffer: string)
    requires Numbered(history) && seen <= now <= |history|
    ensures LastShown(MessagesOf(ChunksOf(history[seen..now])), idBuffer) == if seen < now then Text(now) else idBuffer
  {
    MessagesOfEvents(history[seen..now]);
  }

  lemma {:induction false} IdAfter(id: string, seen: nat, now: nat, idBuffer: string)
    requires ParseEventId(Some(idBuffer)) == seen <= now && id == if seen < now then Text(now) else idBuffer
    ensures ParseEventId(Some(id)) == now
  {
    if seen < now { EventIdRoundTrip(now); }
  }

  /** A client that kept its last id comes back having seen `seen` events and gets the rest, with
      heartbeats anywhere between, in a response cut anywhere. */
  lemma {:induction false} SeenBeforeTheCut(body: string, chunks: seq<Chunk>, history: seq<StatusEvent>, seen: nat,
                                            idBuffer: string, n: nat) returns (now: nat)
    requires Prints(body, chunks) && n <= |body| && Numbered(history) && seen <= |history|
    requires MessagesOf(chunks) == MessagesOf(ChunksOf(history[seen..]))
    ensures var r := Interpret(Fresh(idBuffer), body[..n]);
      && seen <= now == seen + |r.messages| <= |history|
      && r.messages == MessagesOf(ChunksOf(history[seen..now]))
      && r.lastEventId == if seen < now then Text(now) else idBuffer
  {
    BrokenStream(body, chunks, idBuffer, n);
    var r := Interpret(Fresh(idBuffer), body[..n]);
    now := seen + |r.messages|;
    FirstOf(r.messages, history, seen);
    LastShownText(history, seen, now, idBuffer);
  }

  /** What it shows are the next events, and the id it reports counts all it has seen: the next
      connection sends exactly what follows, if that is at most a hundred events. */
  lemma {:induction false} ResumesAfterCut(body: string, chunks: seq<Chunk>, history: seq<StatusEvent>, seen: nat,
                                           idBuffer: string, n: nat, later: seq<StatusEvent>)
    returns (now: nat, reported: nat)
    requires Prints(body, chunks) && n <= |body|
    requires Numbered(later) && history <= later && seen <= |history|
    requires MessagesOf(chunks) == MessagesOf(ChunksOf(history[seen..]))
    requires ParseEventId(Some(idBuffer)) == seen
    ensures var r := Interpret(Fresh(idBuffer), body[..n]);
      && seen <= now == seen + |r.messages| <= |history|
      && r.messages == MessagesOf(ChunksOf(history[seen..now]))
      && reported == ParseEventId(Some(r.lastEventId))
    ensures reported == now && Tell(MessagesOf(ChunksOf(history[seen..now])), history[seen..now])
    ensures Missed(later, reported) == later[now..] <==> |later| - now <= BUFFER_SIZE
  {
    now := SeenBeforeTheCut(body, chunks, history, seen, idBuffer, n);
    reported := now;
    MessagesTell(history[seen..now]);
    IdAfter(Interpret(Fresh(idBuffer), body[..n]).lastEventId, seen, now, idBuffer);
    ReplayIsComplete(later, now);
  }

  // ---------------------------------------------------------------- a client that follows the standard

  /** Section 9.2.6 starts every stream with an empty id buffer; the last event id stays what the
      client came with until a blank line sets it to the buffer. */
  function Standard(lastEventId: string): Reader {
    Reader("", "", "", [], lastEventId, None)
  }

  /** Some event is complete within the first `n` characters of what was written. */
  predicate EventArrived(chunks: seq<Chunk>, n: int) {
    chunks != [] && |Written(chunks[0])| <= n
    && (chunks[0].Event? || EventArrived(chunks[1..], n - |Written(chunks[0])|))
  }

  lemma {:induction false} ShownWhenArrived(r: Reader, chunks: seq<Chunk>, n: nat)
    requires AtRest(r) && AllPrintable(chunks) && n <= |Render(chunks)|
    ensures Interpret(r, Render(chunks)[..n]).messages == r.messages <==> !EventArrived(chunks, n)
    decreases |chunks|
  {
    if chunks == [] {
      assert Lines("") == [];
    } else {
      var first, rest := Written(chunks[0]), Render(chunks[1..]);
      if n < |first| {
        assert Render(chunks)[..n] == first[..n];
        PartOfFirst(r, chunks[0], n);
      } else {
        var n' := n - |first|;
        assert Render(chunks)[..n] == first + rest[..n'];
        WholeFirst(r, chunks[0], rest[..n']);
        if chunks[0].Ping? {
          ShownWhenArrived(r, chunks[1..], n');
        }
      }
    }
  }

  lemma {:induction false} PartOfFirst(r: Reader, chunk: Chunk, n: nat)
    requires Printable(chunk) && n < |Written(chunk)|
    ensures Interpret(r, Written(chunk)[..n]).messages == r.messages
  {
    WrittenIsItsLines(chunk);
    var k := LinesOfPart(LinesOf(chunk), n);
    PartOfChunk(r, chunk, k);
  }

  lemma {:induction false} WholeFirst(r: Reader, chunk: Chunk, rest: string)
    requires AtRest(r) && Printable(chunk)
    ensures chunk.Ping? ==> Interpret(r, Written(chunk) + rest) == Interpret(r, rest)
    ensures chunk.Event? ==> |Interpret(r, Written(chunk) + rest).messages| > |r.messages|
  {
    WrittenIsItsLines(chunk);
    LinesAfterJoin(LinesOf(chunk), rest);
    FeedConcat(r, LinesOf(chunk), Lines(rest));
    match chunk
    case Event(id, json) =>
      ReadEvent(r, id, json);
      FeedKeepsMessages(AfterEvent(r, id, json), Lines(rest));
    case Ping => ReadPing(r);
  }

  lemma {:induction false} BeforeTheOpeningEnds(r: Reader, n: nat)
    requires n < |Opening()|
    ensures Interpret(r, Opening()[..n]).messages == r.messages
    ensures Interpret(r, Opening()[..n]).lastEventId == r.lastEventId
  {
    var opening := [FieldLine("retry", Text(SSE_RETRY_MS)), ""];
    OpeningLines(SSE_RETRY_MS);
    var k := LinesOfPart(opening, n);
    FieldsShowNothing(r, opening[..k]);
  }

  /** After the opening the id the client came with is gone. */
  lemma {:induction false} AfterTheOpening(lastEventId: string, rest: string)
    ensures Interpret(Standard(lastEventId), Opening() + rest)
      == Interpret(Fresh("").(reconnectionMs := Some(SSE_RETRY_MS)), rest)
      == Interpret(Fresh(""), Opening() + rest)
  {
    var opening := [FieldLine("retry", Text(SSE_RETRY_MS)), ""];
    OpeningLines(SSE_RETRY_MS);
    LinesAfterJoin(opening, rest);
    ForgetsAtTheBlank(Standard(lastEventId), rest, opening);
    ForgetsAtTheBlank(Fresh(""), rest, opening);
  }

  lemma {:induction false} ForgetsAtTheBlank(r: Reader, rest: string, opening: seq<string>)
    requires r.data == "" && r.eventType == "" && opening == [FieldLine("retry", Text(SSE_RETRY_MS)), ""]
    ensures Feed(r, opening + Lines(rest))
      == Feed(r.(reconnectionMs := Some(SSE_RETRY_MS), lastEventId := r.idBuffer), Lines(rest))
  {
    FeedConcat(r, opening, Lines(rest));
    ReadRetry(r, SSE_RETRY_MS);
  }

  /** The cuts after which a standard client still knows what it has seen: it had seen nothing, the
      blank line of the opening has not arrived, or an event has. */
  predicate KeepsItsPlace(chunks: seq<Chunk>, seen: nat, n: nat) {
    seen == 0 || n < |Opening()| || EventArrived(chunks, n - |Opening()|)
  }

  lemma {:induction false} CutInTheOpening(body: string, chunks: seq<Chunk>, last: string, n: nat)
    requires Prints(body, chunks) && n < |Opening()|
    ensures n <= |body|
    ensures var r := Interpret(Standard(last), body[..n]); r.messages == [] && r.lastEventId == last
  {
    assert body[..n] == Opening()[..n];
    BeforeTheOpeningEnds(Standard(last), n);
  }

  lemma {:induction false} CutAfterTheOpening(body: string, chunks: seq<Chunk>, last: string, n: nat)
    requires Prints(body, chunks) && |Opening()| <= n <= |body|
    ensures Interpret(Standard(last), body[..n]) == Interpret(Fresh(""), body[..n])
    ensures Interpret(Standard(last), body[..n]).messages == [] <==> !EventArrived(chunks, n - |Opening()|)
  {
    var k := n - |Opening()|;
    assert body[..n] == Opening() + Render(chunks)[..k];
    AfterTheOpening(last, Render(chunks)[..k]);
    ShownWhenArrived(Fresh("").(reconnectionMs := Some(SSE_RETRY_MS)), chunks, k);
  }

  /** What a standard client that had seen `seen` events reports after any cut: all it has seen, or,
      having lost its place, nothing. */
  lemma {:induction false} ReportsOrForgets(body: string, chunks: seq<Chunk>, history: seq<StatusEvent>, seen: nat,
                                            last: string, n: nat) returns (now: nat, reported: nat)
    requires Prints(body, chunks) && n <= |body| && Numbered(history) && seen <= |history|
    requires MessagesOf(chunks) == MessagesOf(ChunksOf(history[seen..]))
    requires ParseEventId(Some(last)) == seen
    ensures var r := Interpret(Standard(last), body[..n]);
      && seen <= now == seen + |r.messages| <= |history|
      && r.messages == MessagesOf(ChunksOf(history[seen..now]))
      && reported == ParseEventId(Some(r.lastEventId))
    ensures reported == if KeepsItsPlace(chunks, seen, n) then now else 0
    ensures now == 0 ==> KeepsItsPlace(chunks, seen, n)
  {
    if n < |Opening()| {
      CutInTheOpening(body, chunks, last, n);
      now, reported := seen, seen;
      assert ChunksOf(history[seen..seen]) == [];
    } else {
      now := SeenBeforeTheCut(body, chunks, history, seen, "", n);
      CutAfterTheOpening(body, chunks, last, n);
      GarbageMeansFromTheStart("");
      if seen < now { EventIdRoundTrip(now); }
      reported := if seen < now then now else 0;
    }
  }

  /** What a client that reports 0 is sent. */
  lemma FromTheStart(later: seq<StatusEvent>, now: nat)
    requires Numbered(later) && 0 < now <= |later|
    ensures Missed(later, 0) == Buffer(later)
    ensures Missed(later, 0) == later[now..] <==> |later| - now == BUFFER_SIZE
  {
    NewerOfNumbered(Buffer(later), |later| - |Buffer(later)|, 0);
    if Buffer(later) == later[now..] {
      assert |Buffer(later)| == |later| - now;
    }
  }

  lemma WhatIsSent(later: seq<StatusEvent>, now: nat, reported: nat, keeps: bool)
    requires Numbered(later) && now <= |later| && (now == 0 ==> keeps) && reported == if keeps then now else 0
    ensures (!keeps ==> Missed(later, reported) == Buffer(later))
      && (Missed(later, reported) == later[now..] <==>
            if keeps then |later| - now <= BUFFER_SIZE else |later| - now == BUFFER_SIZE)
  {
    if keeps { ReplayIsComplete(later, now); } else { FromTheStart(later, now); }
  }

  /** A client that follows section 9.2.6 keeps its place through a cut exactly if it had seen
      nothing yet, or the cut comes before the end of the opening or after the first event. In
      between it has forgotten its id and is sent the whole buffer again; that is what it misses
      only if it misses exactly a hundred events. */
  lemma {:induction false} OpeningForgetsTheId(body: string, chunks: seq<Chunk>, history: seq<StatusEvent>, seen: nat,
                                               last: string, n: nat, later: seq<StatusEvent>)
    returns (now: nat, reported: nat)
    requires Prints(body, chunks) && n <= |body| && Numbered(later) && history <= later && seen <= |history|
    requires MessagesOf(chunks) == MessagesOf(ChunksOf(history[seen..]))
    requires ParseEventId(Some(last)) == seen
    ensures var r := Interpret(Standard(last), body[..n]);
      && seen <= now == seen + |r.messages| <= |history|
      && r.messages == MessagesOf(ChunksOf(history[seen..now]))
      && reported == ParseEventId(Some(r.lastEventId))
    ensures reported == now <==> KeepsItsPlace(chunks, seen, n)
    ensures !KeepsItsPlace(chunks, seen, n) ==> reported == 0 && Missed(later, reported) == Buffer(later)
    ensures Missed(later, reported) == later[now..]
      <==> if KeepsItsPlace(chunks, seen, n) then |later| - now <= BUFFER_SIZE else |later| - now == BUFFER_SIZE
  {
    now, reported := ReportsOrForgets(body, chunks, history, seen, last, n);
    WhatIsSent(later, now, reported, KeepsItsPlace(chunks, seen, n));
  }

  /** The failing inputs: any id but 0, and a connection that breaks right after the opening. */
  lemma {:induction false} ForgottenAfterTheOpening(body: string, chunks: seq<Chunk>, last: string)
    requires Prints(body, chunks) && ParseEventId(Some(last)) > 0
    ensures |Opening()| <= |body| && !KeepsItsPlace(chunks, ParseEventId(Some(last)), |Opening()|)
    ensures ParseEventId(Some(Interpret(Standard(last), body[..|Opening()|]).lastEventId)) == 0
  {
    NothingWritten(chunks);
    assert body[..|Opening()|] == Opening() + "";
    AfterTheOpening(last, "");
    assert Lines("") == [];
    GarbageMeansFromTheStart("");
  }

  lemma {:induction false} NothingWritten(chunks: seq<Chunk>)
    ensures !EventArrived(chunks, 0)
  {
    if chunks != [] { assert |Written(chunks[0])| > 0; }
  }

  // ---------------------------------------------------------------- one connection

  lemma Associate(a: string, b: string, c: string)
    ensures (a + b) + c == a + (b + c)
  {
  }

  lemma {:induction false} RenderAppend(chunks: seq<Chunk>, chunk: Chunk)
    ensures Render(chunks + [chunk]) == Render(chunks) + Written(chunk)
  {
    var longer, w := chunks + [chunk], Written(chunk);
    if chunks == [] {
      assert longer == [chunk] && longer[1..] == [];
      assert Render(longer) == w + "";
    } else {
      assert longer[0] == chunks[0] && longer[1..] == chunks[1..] + [chunk];
      RenderAppend(chunks[1..], chunk);
      Associate(Written(chunks[0]), Render(chunks[1..]), w);
    }
  }

  lemma {:induction false} WriteAppends(body: string, chunks: seq<Chunk>, chunk: Chunk)
    requires Prints(body, chunks) && Printable(chunk)
    ensures Prints(body + Written(chunk), chunks + [chunk])
  {
    RenderAppend(chunks, chunk);
    Associate(Opening(), Render(chunks), Written(chunk));
  }

  lemma ChunksOfNext(before: seq<Chunk>, events: seq<StatusEvent>, i: nat)
    requires i < |events|
    ensures (before + ChunksOf(events[..i])) + [ChunkOf(events[i])] == before + ChunksOf(events[..i + 1])
  {
    assert ChunksOf(events[..i + 1]) == ChunksOf(events[..i]) + [ChunkOf(events[i])];
  }

  /** The response of one connection while it is open. */
  class OrderStream {
    const orderId: string
    var body: string
    ghost var chunks: seq<Chunk>

    ghost predicate Valid()
      reads this
    {
      Prints(body, chunks)
    }

    constructor (orderId: string)
      ensures Valid() && this.orderId == orderId && chunks == []
    {
      this.orderId := orderId;
      body, chunks := Opening() + Render([]), [];
    }

    method Write(chunk: Chunk)
      requires Valid() && Printable(chunk)
      modifies this
      ensures Valid() && chunks == old(chunks) + [chunk]
    {
      WriteAppends(body, chunks, chunk);
      body := body + Written(chunk);
      chunks := chunks + [chunk];
    }

    method WriteEvent(event: StatusEvent)
      requires Valid()
      modifies this
      ensures Valid() && chunks == old(chunks) + [ChunkOf(event)]
    {
      EventsArePrintable(event);
      Write(ChunkOf(event));
    }

    method WriteAll(events: seq<StatusEvent>)
      requires Valid()
      modifies this
      ensures Valid() && chunks == old(chunks) + ChunksOf(events)
    {
      var i := 0;
      while i < |events|
        invariant 0 <= i <= |events|
        invariant Valid() && chunks == old(chunks) + ChunksOf(events[..i])
      {
        ChunksOfNext(old(chunks), events, i);
        WriteEvent(events[i]);
        i := i + 1;
      }
      assert events[..|events|] == events;
    }

    /** First, what the client has missed. */
    method Replay(service: OrderEventsService, header: Option<string>, query: Option<string>)
      requires Valid() && service.Valid()
      modifies this
      ensures Valid()
      ensures chunks == old(chunks)
        + ChunksOf(old(Missed(service.History(orderId), ParseEventId(if header.Some? then header else query))))
      ensures var missed := old(Missed(service.History(orderId), ParseEventId(if header.Some? then header else query)));
        forall k :: 0 <= k < |missed| ==> Carries(chunks[|old(chunks)| + k], missed[k])
    {
      ghost var missed := Missed(service.History(orderId), ParseEventId(if header.Some? then header else query));
      forall k | 0 <= k < |missed| ensures Carries(ChunksOf(missed)[k], missed[k]) { ChunkCarries(missed[k]); }
      WriteAll(service.ReplaySince(orderId, ParseEventId(if header.Some? then header else query)));
    }

    /** A published event reaches the stream of its own order only. */
    method OnEvent(event: StatusEvent)
      requires Valid()
      modifies this
      ensures Valid()
      ensures chunks == if event.orderId == orderId then old(chunks) + [ChunkOf(event)] else old(chunks)
      ensures event.orderId == orderId ==> Carries(chunks[|chunks| - 1], event)
    {
      if event.orderId != orderId { return; }
      ChunkCarries(event);
      WriteEvent(event);
    }

    method Heartbeat()
      requires Valid()
      modifies this
      ensures Valid() && chunks == old(chunks) + [Ping]
    {
      Write(Ping);
    }
  }
}

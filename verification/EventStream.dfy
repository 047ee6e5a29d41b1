/** How a client reads an event stream: sections 9.2.5 and 9.2.6 of WHATWG HTML. */
module EventStream {
  import opened Wrappers
  import opened Decimal

  datatype Message = Message(eventType: string, data: string, lastEventId: string)

  /** The three buffers of the stream, and what it has brought about. */
  datatype Reader = Reader(data: string, eventType: string, idBuffer: string,
                           messages: seq<Message>, lastEventId: string, reconnectionMs: Option<nat>)

  // ---------------------------------------------------------------- lines

  predicate IsEol(c: char) {
    c == '\n' || c == '\r'
  }

  predicate OneLine(s: string) {
    forall i :: 0 <= i < |s| ==> !IsEol(s[i])
  }

  /** Where the first line ends. */
  function Eol(s: string): (i: nat)
    ensures i <= |s| && OneLine(s[..i]) && (i < |s| ==> IsEol(s[i]))
  {
    if s == "" || IsEol(s[0]) then 0
    else
      var i := Eol(s[1..]);
      assert s[..i + 1] == [s[0]] + s[1..][..i];
      i + 1
  }

  /** After the end of a line, which may be a pair. */
  function AfterEol(s: string, i: nat): string
    requires i < |s|
  {
    if s[i] == '\r' && i + 1 < |s| && s[i + 1] == '\n' then s[i + 2..] else s[i + 1..]
  }

  /** The lines of a stream; what follows the last end of a line is discarded. */
  function Lines(s: string): seq<string>
    decreases |s|
  {
    var i := Eol(s);
    if i == |s| then [] else [s[..i]] + Lines(AfterEol(s, i))
  }

  // ---------------------------------------------------------------- fields

  /** Where the field name ends. */
  function Colon(line: string): (i: nat)
    ensures i <= |line| && (forall j :: 0 <= j < i ==> line[j] != ':') && (i < |line| ==> line[i] == ':')
  {
    if line == "" || line[0] == ':' then 0 else Colon(line[1..]) + 1
  }

  function ReadLine(r: Reader, line: string): Reader {
    var i := Colon(line);
    if line == "" then Dispatch(r)
    else if i == 0 then r
    else if i == |line| then ReadField(r, line, "")
    else if i + 1 < |line| && line[i + 1] == ' ' then ReadField(r, line[..i], line[i + 2..])
    else ReadField(r, line[..i], line[i + 1..])
  }

  function ReadField(r: Reader, name: string, value: string): Reader {
    if name == "event" then r.(eventType := value)
    else if name == "data" then r.(data := r.data + value + "\n")
    else if name == "id" then (if '\0' in value then r else r.(idBuffer := value))
    else if name == "retry" then
      (if value != "" && AllDigits(value) then r.(reconnectionMs := Some(Value(value))) else r)
    else r
  }

  function Dispatch(r: Reader): Reader {
    var r' := r.(lastEventId := r.idBuffer, data := "", eventType := "");
    if r.data == "" then r'
    else
      var data := if r.data[|r.data| - 1] == '\n' then r.data[..|r.data| - 1] else r.data;
      r'.(messages := r.messages + [Message(if r.eventType == "" then "message" else r.eventType, data, r.idBuffer)])
  }

  function Feed(r: Reader, lines: seq<string>): Reader
    decreases |lines|
  {
    if lines == [] then r else Feed(ReadLine(r, lines[0]), lines[1..])
  }

  function Interpret(r: Reader, s: string): Reader {
    Feed(r, Lines(s))
  }

  // ---------------------------------------------------------------- reading what was written

  /** Lines, each ended by LF. */
  function Join(lines: seq<string>): string {
    if lines == [] then "" else lines[0] + "\n" + Join(lines[1..])
  }

  lemma {:induction false} EolOfLine(line: string, rest: string)
    requires OneLine(line)
    ensures Eol(line + "\n" + rest) == |line|
  {
    if line != "" {
      assert (line + "\n" + rest)[1..] == line[1..] + "\n" + rest;
      EolOfLine(line[1..], rest);
    }
  }

  lemma {:induction false} LinesOfJoin(lines: seq<string>)
    requires forall i :: 0 <= i < |lines| ==> OneLine(lines[i])
    ensures Lines(Join(lines)) == lines
  {
    if lines != [] {
      var line, rest := lines[0], Join(lines[1..]);
      EolOfLine(line, rest);
      var s := line + "\n" + rest;
      assert s[..|line|] == line && s[|line| + 1..] == rest;
      LinesOfJoin(lines[1..]);
    }
  }

  lemma {:induction false} LinesOfLine(s: string, line: string, rest: string)
    requires OneLine(line) && s == line + "\n" + rest
    ensures Lines(s) == [line] + Lines(rest)
  {
    EolOfLine(line, rest);
    assert s[..|line|] == line && s[|line| + 1..] == rest;
  }

  lemma Associate<T>(a: seq<T>, b: seq<T>, c: seq<T>)
    ensures (a + b) + c == a + (b + c)
  {
  }

  lemma {:induction false} LinesAfterJoin(lines: seq<string>, rest: string)
    requires forall i :: 0 <= i < |lines| ==> OneLine(lines[i])
    ensures Lines(Join(lines) + rest) == lines + Lines(rest)
  {
    if lines == [] {
      assert Join(lines) + rest == rest;
    } else {
      LinesAfterJoin(lines[1..], rest);
      Associate(lines[0] + "\n", Join(lines[1..]), rest);
      LinesOfLine(Join(lines) + rest, lines[0], Join(lines[1..]) + rest);
      Associate([lines[0]], lines[1..], Lines(rest));
      assert [lines[0]] + lines[1..] == lines;
    }
  }

  lemma {:induction false} NoEol(line: string)
    requires OneLine(line)
    ensures Lines(line) == []
  {
    var i := Eol(line);
  }

  /** Of lines that did not all arrive the last one does not count. */
  lemma {:induction false} LinesOfPart(lines: seq<string>, n: nat) returns (k: nat)
    requires (forall i :: 0 <= i < |lines| ==> OneLine(lines[i])) && n < |Join(lines)|
    ensures k < |lines| && Lines(Join(lines)[..n]) == lines[..k]
  {
    var line, rest := lines[0], Join(lines[1..]);
    assert Join(lines) == line + "\n" + rest;
    if n <= |line| {
      k := 0;
      assert Join(lines)[..n] == line[..n];
      NoEol(line[..n]);
    } else {
      var n' := n - |line| - 1;
      assert Join(lines)[..n] == line + "\n" + rest[..n'];
      LinesOfLine(Join(lines)[..n], line, rest[..n']);
      var k' := LinesOfPart(lines[1..], n');
      k := k' + 1;
    }
  }

  lemma {:induction false} FeedConcat(r: Reader, a: seq<string>, b: seq<string>)
    ensures Feed(r, a + b) == Feed(Feed(r, a), b)
    decreases |a|
  {
    if a == [] {
      assert a + b == b;
    } else {
      assert (a + b)[1..] == a[1..] + b;
      FeedConcat(ReadLine(r, a[0]), a[1..], b);
    }
  }

  lemma {:induction false} ColonAfterName(name: string, rest: string)
    requires ':' !in name
    ensures Colon(name + ":" + rest) == |name|
  {
    if name != "" {
      assert (name + ":" + rest)[1..] == name[1..] + ":" + rest;
      ColonAfterName(name[1..], rest);
    }
  }

  function FieldLine(name: string, value: string): string {
    name + ": " + value
  }

  lemma {:induction false} ReadFieldLine(r: Reader, name: string, value: string)
    requires name != "" && ':' !in name
    ensures ReadLine(r, FieldLine(name, value)) == ReadField(r, name, value)
  {
    var line := FieldLine(name, value);
    ColonAfterName(name, " " + value);
    assert line == name + ":" + (" " + value);
    assert line[..|name|] == name && line[|name| + 2..] == value;
  }

  lemma {:induction false} FieldEffects(r: Reader, value: string)
    ensures ReadField(r, "event", value) == r.(eventType := value)
    ensures ReadField(r, "data", value) == r.(data := r.data + value + "\n")
    ensures '\0' !in value ==> ReadField(r, "id", value) == r.(idBuffer := value)
    ensures value != "" && AllDigits(value) ==> ReadField(r, "retry", value) == r.(reconnectionMs := Some(Value(value)))
  {
    assert |"event"| == 5 && |"data"| == 4 && |"id"| == 2 && |"retry"| == 5;
    assert "retry"[0] == 'r' && "event"[0] == 'e';
  }

  lemma OneLineConcat(a: string, b: string)
    requires OneLine(a) && OneLine(b)
    ensures OneLine(a + b)
  {
  }

  lemma FieldLineIsOneLine(name: string, value: string)
    requires OneLine(name) && OneLine(value)
    ensures OneLine(FieldLine(name, value))
  {
    OneLineConcat(name, ": ");
    OneLineConcat(name + ": ", value);
  }

  // ---------------------------------------------------------------- a connection that breaks

  lemma LineKeepsMessages(r: Reader, line: string)
    ensures r.messages <= ReadLine(r, line).messages
  {
  }

  lemma {:induction false} FeedKeepsMessages(r: Reader, lines: seq<string>)
    ensures r.messages <= Feed(r, lines).messages
    decreases |lines|
  {
    if lines != [] {
      LineKeepsMessages(r, lines[0]);
      FeedKeepsMessages(ReadLine(r, lines[0]), lines[1..]);
    }
  }

  lemma {:induction false} EolOfPrefix(s: string, t: string)
    requires Eol(s) < |s|
    ensures Eol(s + t) == Eol(s)
  {
    if !IsEol(s[0]) {
      assert (s + t)[1..] == s[1..] + t;
      EolOfPrefix(s[1..], t);
    }
  }

  /** More of a stream means more lines after the same ones, even if it was cut inside CR LF. */
  lemma {:induction false} LinesOfPrefix(s: string, t: string)
    ensures Lines(s) <= Lines(s + t)
    decreases |s|
  {
    var i := Eol(s);
    if i < |s| {
      EolOfPrefix(s, t);
      assert (s + t)[..i] == s[..i];
      if s[i] == '\r' && i + 1 == |s| && t != "" && t[0] == '\n' {
        assert AfterEol(s, i) == "";
      } else {
        assert AfterEol(s + t, i) == AfterEol(s, i) + t;
        LinesOfPrefix(AfterEol(s, i), t);
      }
    }
  }

  /** Only a blank line dispatches. */
  lemma {:induction false} FieldsShowNothing(r: Reader, lines: seq<string>)
    requires forall i :: 0 <= i < |lines| ==> lines[i] != ""
    ensures Feed(r, lines).messages == r.messages && Feed(r, lines).lastEventId == r.lastEventId
    decreases |lines|
  {
    if lines != [] {
      FieldShowsNothing(r, lines[0]);
      FieldsShowNothing(ReadLine(r, lines[0]), lines[1..]);
    }
  }

  lemma FieldShowsNothing(r: Reader, line: string)
    requires line != ""
    ensures ReadLine(r, line).messages == r.messages && ReadLine(r, line).lastEventId == r.lastEventId
  {
  }

  /** Wherever a stream is cut, what was dispatched by then is a prefix of what the whole stream
      dispatches: no event is torn, none appears out of order. */
  lemma CutAnywhere(r: Reader, s: string, t: string)
    ensures Interpret(r, s).messages <= Interpret(r, s + t).messages
  {
    LinesOfPrefix(s, t);
    var a, all := Lines(s), Lines(s + t);
    assert all == a + all[|a|..];
    FeedConcat(r, a, all[|a|..]);
    FeedKeepsMessages(Feed(r, a), all[|a|..]);
  }
}

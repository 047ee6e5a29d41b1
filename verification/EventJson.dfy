/** The JSON text of a status event (src/orders/orders.controller.ts:128-130), and a client that reads
    it back. */
module EventJson {
  import opened Wrappers
  import opened Decimal
  import opened OrderEvents
  import opened EventStream
  import J = JsonText

  // ---------------------------------------------------------------- JSON text of an event

  function Hex(d: nat): char
    requires d < 16
  {
    if d < 10 then Digit(d) else ('a' as int + (d - 10)) as char
  }

  function Escape(c: char): string {
    if c == '"' then "\\\""
    else if c == '\\' then "\\\\"
    else if c as int == 8 then "\\b"
    else if c as int == 9 then "\\t"
    else if c as int == 10 then "\\n"
    else if c as int == 12 then "\\f"
    else if c as int == 13 then "\\r"
    else if c as int < 32 then "\\u00" + [Hex(c as int / 16), Hex(c as int % 16)]
    else [c]
  }

  function Escaped(s: string): string {
    if s == "" then "" else Escape(s[0]) + Escaped(s[1..])
  }

  function Quote(s: string): string {
    "\"" + Escaped(s) + "\""
  }

  function Field(name: string, value: string): string {
    "\"" + name + "\":" + value
  }

  /** JSON.stringify(event), members in the order `publish` writes them. */
  function Stringify(e: StatusEvent): string {
    "{" + (Field("id", Text(e.id)) + ("," + (Field("at", Quote(e.at)) + ("," + (Field("order_id", Quote(e.orderId))
    + ("," + (Field("status", Quote(e.status)) + ("," + (Field("previous_status", Quote(e.previousStatus)) + "}")))))))))
  }

  // ---------------------------------------------------------------- and what a client reads in it

  /** The event a client finds in the data of a message. */
  function ParseEvent(json: string): Option<StatusEvent> {
    match J.ReadObject(json)
    case None => None
    case Some(members) => FromMembers(members)
  }

  function FromMembers(m: seq<J.Member>): Option<StatusEvent> {
    var id, at, orderId := J.Lookup(m, "id"), J.Lookup(m, "at"), J.Lookup(m, "order_id");
    var status, previous := J.Lookup(m, "status"), J.Lookup(m, "previous_status");
    if id.Some? && id.value.Number? && at.Some? && at.value.Text? && orderId.Some? && orderId.value.Text?
       && status.Some? && status.value.Text? && previous.Some? && previous.value.Text?
    then Some(StatusEvent(id.value.n, orderId.value.text, status.value.text, previous.value.text, at.value.text))
    else None
  }

  lemma HexIsRead(d: nat)
    requires d < 16
    ensures J.HexValue(Hex(d)) == Some(d)
  {
  }

  /** One character, escaped or not, is read back. */
  lemma {:induction false} EscapeIsRead(c: char, t: string)
    ensures J.ReadString(Escape(c) + t) == J.Prepend(Some(c), J.ReadString(t))
  {
    var e := Escape(c);
    if |e| == 1 {
      assert (e + t)[1..] == t;
    } else if |e| == 2 {
      assert (e + t)[2..] == t;
    } else {
      assert (e + t)[6..] == t;
      HexIsRead(c as int / 16);
      HexIsRead(c as int % 16);
      assert e[2] == '0' && e[3] == '0' && e[4] == Hex(c as int / 16) && e[5] == Hex(c as int % 16);
    }
  }

  lemma {:induction false} EscapedIsRead(text: string, rest: string)
    ensures J.ReadString(Escaped(text) + "\"" + rest) == Some(J.Read(text, rest))
  {
    var t := "\"" + rest;
    if text == "" {
      assert Escaped(text) + "\"" + rest == t && t[1..] == rest;
    } else {
      EscapedIsRead(text[1..], rest);
      assert Escaped(text) + "\"" + rest == Escape(text[0]) + (Escaped(text[1..]) + "\"" + rest);
      EscapeIsRead(text[0], Escaped(text[1..]) + "\"" + rest);
      assert [text[0]] + text[1..] == text;
    }
  }

  function Printed(value: J.Scalar): string {
    if value.Text? then Quote(value.text) else Text(value.n)
  }

  /** A member as it is printed: the name needs no escapes. */
  function PrintedMember(m: J.Member): string {
    Field(m.name, Printed(m.value))
  }

  predicate Plain(name: string) {
    forall i :: 0 <= i < |name| ==> name[i] as int >= 32 && name[i] != '"' && name[i] != '\\'
  }

  lemma {:induction false} PlainIsEscaped(name: string)
    requires Plain(name)
    ensures Escaped(name) == name
  {
    if name != "" { PlainIsEscaped(name[1..]); }
  }

  lemma {:induction false} DigitsAreRead(digits: string, rest: string)
    requires AllDigits(digits) && (rest == "" || !IsDigit(rest[0]))
    ensures J.DigitsOf(digits + rest) == digits
  {
    if digits != "" {
      assert (digits + rest)[1..] == digits[1..] + rest;
      DigitsAreRead(digits[1..], rest);
    } else {
      assert digits + rest == rest;
    }
  }

  lemma TextScalar(t: string, text: string, rest: string)
    requires t != "" && t[0] == '"' && J.ReadString(t[1..]) == Some(J.Read(text, rest))
    ensures J.ReadScalar(t) == Some(J.Read(J.Scalar.Text(text), rest))
  {
  }

  lemma {:induction false} NumberScalar(t: string, digits: string, rest: string)
    requires t != "" && t[0] != '"' && J.DigitsOf(t) == digits && digits != "" && t[|digits|..] == rest
    ensures J.ReadScalar(t) == Some(J.Read(J.Number(Value(digits)), rest))
  {
  }

  lemma Quoted(escaped: string, rest: string)
    ensures var t := "\"" + escaped + "\"" + rest; t[0] == '"' && t[1..] == escaped + "\"" + rest
  {
  }

  lemma {:induction false} TextIsRead(text: string, rest: string)
    ensures J.ReadScalar(Quote(text) + rest) == Some(J.Read(J.Scalar.Text(text), rest))
  {
    EscapedIsRead(text, rest);
    Quoted(Escaped(text), rest);
    TextScalar(Quote(text) + rest, text, rest);
  }

  lemma {:induction false} NumberIsRead(digits: string, n: nat, rest: string)
    requires digits != "" && AllDigits(digits) && Value(digits) == n && (rest == "" || !IsDigit(rest[0]))
    ensures J.ReadScalar(digits + rest) == Some(J.Read(J.Number(n), rest))
  {
    var t := digits + rest;
    DigitsAreRead(digits, rest);
    assert t[0] == digits[0] && IsDigit(digits[0]) && t[|digits|..] == rest;
    NumberScalar(t, digits, rest);
  }

  lemma {:induction false} ScalarIsRead(value: J.Scalar, rest: string)
    requires rest == "" || !IsDigit(rest[0])
    ensures J.ReadScalar(Printed(value) + rest) == Some(J.Read(value, rest))
  {
    match value
    case Text(text) => TextIsRead(text, rest);
    case Number(n) =>
      ValueOfText(n);
      NumberIsRead(Text(n), n, rest);
  }

  lemma MemberFromParts(t: string, m: J.Member, tail: string, rest: string)
    requires t != "" && t[0] == '"' && J.ReadString(t[1..]) == Some(J.Read(m.name, ":" + tail))
    requires J.ReadScalar(tail) == Some(J.Read(m.value, rest))
    ensures J.ReadMember(t) == Some(J.Read(m, rest))
  {
    assert (":" + tail)[1..] == tail;
  }

  lemma {:induction false} MemberIsRead(m: J.Member, rest: string)
    requires Plain(m.name) && (rest == "" || !IsDigit(rest[0]))
    ensures J.ReadMember(PrintedMember(m) + rest) == Some(J.Read(m, rest))
  {
    var tail := Printed(m.value) + rest;
    NameFirst(m.name, Printed(m.value), rest);
    PlainIsEscaped(m.name);
    EscapedIsRead(m.name, ":" + tail);
    ScalarIsRead(m.value, rest);
    MemberFromParts(PrintedMember(m) + rest, m, tail, rest);
  }

  lemma NameFirst(name: string, value: string, rest: string)
    ensures var t := Field(name, value) + rest;
      t[0] == '"' && t[1..] == name + "\"" + (":" + (value + rest))
  {
  }

  /** Members with commas between, up to the closing brace. */
  function PrintedMembers(members: seq<J.Member>): string
    requires members != []
  {
    if |members| == 1 then PrintedMember(members[0]) + "}"
    else PrintedMember(members[0]) + ("," + PrintedMembers(members[1..]))
  }

  lemma {:induction false} MembersAreRead(members: seq<J.Member>)
    requires members != [] && forall i :: 0 <= i < |members| ==> Plain(members[i].name)
    ensures J.ReadMembers(PrintedMembers(members)) == Some(members)
  {
    if |members| == 1 {
      MemberIsRead(members[0], "}");
      assert [members[0]] == members;
    } else {
      var rest := "," + PrintedMembers(members[1..]);
      MemberIsRead(members[0], rest);
      MembersAreRead(members[1..]);
      assert rest[1..] == PrintedMembers(members[1..]);
      assert [members[0]] + members[1..] == members;
    }
  }

  function EventMembers(e: StatusEvent): seq<J.Member> {
    [J.Member("id", J.Number(e.id)), J.Member("at", J.Scalar.Text(e.at)), J.Member("order_id", J.Scalar.Text(e.orderId)),
     J.Member("status", J.Scalar.Text(e.status)), J.Member("previous_status", J.Scalar.Text(e.previousStatus))]
  }

  lemma FivePrinted(a: J.Member, b: J.Member, c: J.Member, d: J.Member, e: J.Member)
    ensures PrintedMembers([a, b, c, d, e])
      == PrintedMember(a) + ("," + (PrintedMember(b) + ("," + (PrintedMember(c) + ("," + (PrintedMember(d) + ("," + (PrintedMember(e) + "}"))))))))
  {
    assert [a, b, c, d, e][1..] == [b, c, d, e] && [b, c, d, e][1..] == [c, d, e];
    assert [c, d, e][1..] == [d, e] && [d, e][1..] == [e];
    assert PrintedMembers([d, e]) == PrintedMember(d) + ("," + (PrintedMember(e) + "}"));
    assert PrintedMembers([c, d, e]) == PrintedMember(c) + ("," + PrintedMembers([d, e]));
    assert PrintedMembers([b, c, d, e]) == PrintedMember(b) + ("," + PrintedMembers([c, d, e]));
  }

  lemma StringifyPrints(e: StatusEvent)
    ensures Stringify(e) == "{" + PrintedMembers(EventMembers(e))
  {
    var m := EventMembers(e);
    FivePrinted(m[0], m[1], m[2], m[3], m[4]);
  }

  lemma {:induction false} FoundByName(members: seq<J.Member>, i: nat)
    requires i < |members| && forall j, k :: 0 <= j < k < |members| ==> members[j].name != members[k].name
    ensures J.Lookup(members, members[i].name) == Some(members[i].value)
  {
    if i < |members| - 1 { FoundByName(members[..|members| - 1], i); }
  }

  lemma EventMembersFound(e: StatusEvent)
    ensures var m := EventMembers(e);
      && J.Lookup(m, "id") == Some(J.Number(e.id)) && J.Lookup(m, "at") == Some(J.Scalar.Text(e.at))
      && J.Lookup(m, "order_id") == Some(J.Scalar.Text(e.orderId)) && J.Lookup(m, "status") == Some(J.Scalar.Text(e.status))
      && J.Lookup(m, "previous_status") == Some(J.Scalar.Text(e.previousStatus))
  {
    var m := EventMembers(e);
    assert |"id"| == 2 && |"at"| == 2 && |"order_id"| == 8 && |"status"| == 6 && |"previous_status"| == 15;
    assert "id"[0] == 'i' && "at"[0] == 'a';
    FoundByName(m, 0);
    FoundByName(m, 1);
    FoundByName(m, 2);
    FoundByName(m, 3);
    FoundByName(m, 4);
  }

  lemma NamesArePlain(e: StatusEvent)
    ensures forall i :: 0 <= i < 5 ==> Plain(EventMembers(e)[i].name)
  {
  }

  lemma {:induction false} AfterBrace(json: string, text: string, members: seq<J.Member>)
    requires json == "{" + text && J.ReadMembers(text) == Some(members)
    ensures J.ReadObject(json) == Some(members)
  {
    assert json[1..] == text;
  }

  lemma {:induction false} ObjectIsRead(json: string, members: seq<J.Member>)
    requires members != [] && json == "{" + PrintedMembers(members)
    requires forall i :: 0 <= i < |members| ==> Plain(members[i].name)
    ensures J.ReadObject(json) == Some(members)
  {
    MembersAreRead(members);
    AfterBrace(json, PrintedMembers(members), members);
  }

  lemma MembersMakeTheEvent(e: StatusEvent)
    ensures FromMembers(EventMembers(e)) == Some(e)
  {
    EventMembersFound(e);
  }

  /** Reading the data of an event gives the event back, whatever its strings hold. */
  lemma EventIsRead(e: StatusEvent)
    ensures ParseEvent(Stringify(e)) == Some(e)
  {
    StringifyPrints(e);
    NamesArePlain(e);
    ObjectIsRead(Stringify(e), EventMembers(e));
    MembersMakeTheEvent(e);
  }

  lemma {:induction false} EscapedIsOneLine(s: string)
    ensures OneLine(Escaped(s))
  {
    if s != "" {
      EscapedIsOneLine(s[1..]);
      OneLineConcat(Escape(s[0]), Escaped(s[1..]));
    }
  }

  lemma QuoteIsOneLine(s: string)
    ensures OneLine(Quote(s))
  {
    EscapedIsOneLine(s);
  }

  lemma FieldIsOneLine(name: string, value: string, rest: string)
    requires OneLine(name) && OneLine(value) && OneLine(rest)
    ensures OneLine(Field(name, value) + ("," + rest)) && OneLine(Field(name, value) + "}")
  {
    OneLineConcat("\"" + name + "\":", value);
    OneLineConcat(Field(name, value), "," + rest);
  }

  /** Whatever the strings in an event hold, its JSON has no line break. */
  lemma StringifyIsOneLine(e: StatusEvent)
    ensures OneLine(Stringify(e)) && Stringify(e) != ""
  {
    QuoteIsOneLine(e.at);
    QuoteIsOneLine(e.orderId);
    QuoteIsOneLine(e.status);
    QuoteIsOneLine(e.previousStatus);
    TextIsOneLine(e.id);
    var five := Field("previous_status", Quote(e.previousStatus)) + "}";
    FieldIsOneLine("previous_status", Quote(e.previousStatus), "");
    var four := Field("status", Quote(e.status)) + ("," + five);
    FieldIsOneLine("status", Quote(e.status), five);
    var three := Field("order_id", Quote(e.orderId)) + ("," + four);
    FieldIsOneLine("order_id", Quote(e.orderId), four);
    var two := Field("at", Quote(e.at)) + ("," + three);
    FieldIsOneLine("at", Quote(e.at), three);
    var one := Field("id", Text(e.id)) + ("," + two);
    FieldIsOneLine("id", Text(e.id), two);
    assert Stringify(e) == "{" + one;
  }

  lemma {:induction false} TextIsOneLine(n: nat)
    ensures OneLine(Text(n)) && '\0' !in Text(n)
  {
    forall i | 0 <= i < |Text(n)| ensures !IsEol(Text(n)[i]) && Text(n)[i] != '\0' {
      assert IsDigit(Text(n)[i]);
    }
  }
}

/** A reader for JSON texts of flat objects (RFC 8259): what a client makes of the data of an event. */
module JsonText {
  import opened Wrappers
  import opened Decimal

  datatype Scalar = Text(text: string) | Number(n: nat)

  datatype Member = Member(name: string, value: Scalar)

  datatype Read<T> = Read(value: T, rest: string)

  // ---------------------------------------------------------------- strings

  function HexValue(c: char): Option<nat> {
    if '0' <= c <= '9' then Some(c as int - '0' as int)
    else if 'a' <= c <= 'f' then Some(c as int - 'a' as int + 10)
    else if 'A' <= c <= 'F' then Some(c as int - 'A' as int + 10)
    else None
  }

  /** The character a four-digit escape stands for; halves of a pair stand for none. */
  function FourDigits(a: char, b: char, c: char, d: char): Option<char> {
    var h, i, j, k := HexValue(a), HexValue(b), HexValue(c), HexValue(d);
    if h.None? || i.None? || j.None? || k.None? then None
    else
      var code := ((h.value * 16 + i.value) * 16 + j.value) * 16 + k.value;
      if code < 0xD800 || 0xE000 <= code < 0x10000 then Some(code as char) else None
  }

  /** Section 7: the two-character escapes. */
  function Unescaped(c: char): Option<char> {
    match c
    case '"' => Some('"')
    case '\\' => Some('\\')
    case '/' => Some('/')
    case 'b' => Some(8 as char)
    case 'f' => Some(12 as char)
    case 'n' => Some('\n')
    case 'r' => Some('\r')
    case 't' => Some('\t')
    case _ => None
  }

  function Prepend(c: Option<char>, more: Option<Read<string>>): Option<Read<string>> {
    if c.None? || more.None? then None else Some(Read([c.value] + more.value.value, more.value.rest))
  }

  /** A string, its opening quote already read. */
  function ReadString(t: string): Option<Read<string>>
    decreases |t|
  {
    if t == "" then None
    else if t[0] == '"' then Some(Read("", t[1..]))
    else if t[0] as int < 32 then None
    else if t[0] != '\\' then Prepend(Some(t[0]), ReadString(t[1..]))
    else if |t| < 2 then None
    else if t[1] != 'u' then Prepend(Unescaped(t[1]), ReadString(t[2..]))
    else if |t| < 6 then None
    else Prepend(FourDigits(t[2], t[3], t[4], t[5]), ReadString(t[6..]))
  }

  // ---------------------------------------------------------------- numbers

  function DigitsOf(t: string): (d: string)
    ensures d <= t && AllDigits(d)
  {
    if t != "" && IsDigit(t[0]) then [t[0]] + DigitsOf(t[1..]) else ""
  }

  function ReadScalar(t: string): Option<Read<Scalar>> {
    if t != "" && t[0] == '"' then
      var s := ReadString(t[1..]);
      if s.None? then None else Some(Read(Text(s.value.value), s.value.rest))
    else
      var d := DigitsOf(t);
      if d == "" then None else Some(Read(Number(Value(d)), t[|d|..]))
  }

  // ---------------------------------------------------------------- objects

  lemma {:induction false} StringsShrink(t: string)
    ensures ReadString(t).Some? ==> |ReadString(t).value.rest| < |t|
    decreases |t|
  {
    if t != "" && t[0] != '"' && t[0] as int >= 32 {
      if t[0] != '\\' {
        StringsShrink(t[1..]);
      } else if |t| >= 2 && t[1] != 'u' {
        StringsShrink(t[2..]);
      } else if |t| >= 6 {
        StringsShrink(t[6..]);
      }
    }
  }

  /** A name, a colon, a value. */
  function ReadMember(t: string): (r: Option<Read<Member>>)
    ensures r.Some? ==> |r.value.rest| < |t|
  {
    if t == "" || t[0] != '"' then None
    else
      var name := ReadString(t[1..]);
      if name.None? || name.value.rest == "" || name.value.rest[0] != ':' then None
      else
        StringsShrink(t[1..]);
        var value := ReadScalar(name.value.rest[1..]);
        if value.None? then None
        else
          ScalarsShrink(name.value.rest[1..]);
          Some(Read(Member(name.value.value, value.value.value), value.value.rest))
  }

  lemma ScalarsShrink(t: string)
    ensures ReadScalar(t).Some? ==> |ReadScalar(t).value.rest| < |t|
  {
    if t != "" { StringsShrink(t[1..]); }
  }

  /** The members up to the closing brace, which ends the text. */
  function ReadMembers(t: string): Option<seq<Member>>
    decreases |t|
  {
    var first := ReadMember(t);
    if first.None? then None
    else
      var rest := first.value.rest;
      if rest == "}" then Some([first.value.value])
      else if rest == "" || rest[0] != ',' then None
      else
        var others := ReadMembers(rest[1..]);
        if others.None? then None else Some([first.value.value] + others.value)
  }

  /** JSON.parse of a flat object. */
  function ReadObject(text: string): Option<seq<Member>> {
    if text == "" || text[0] != '{' then None else ReadMembers(text[1..])
  }

  /** The value under a name; of several the last counts. */
  function Lookup(members: seq<Member>, name: string): Option<Scalar> {
    if members == [] then None
    else
      var last := members[|members| - 1];
      if last.name == name then Some(last.value) else Lookup(members[..|members| - 1], name)
  }
}

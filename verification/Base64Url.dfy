/** base64url without padding (section 5 of RFC 4648), as Buffer writes and reads it. */
module Base64Url {
  import opened Wrappers

  type Byte = n: nat | n < 256
  type Sextet = n: nat | n < 64

  function CharOf(v: Sextet): char {
    if v < 26 then ('A' as int + v) as char
    else if v < 52 then ('a' as int + (v - 26)) as char
    else if v < 62 then ('0' as int + (v - 52)) as char
    else if v == 62 then '-' else '_'
  }

  /** The reader takes the alphabet of section 4 as well. */
  function SextetOf(c: char): Option<Sextet> {
    if 'A' <= c <= 'Z' then Some(c as int - 'A' as int)
    else if 'a' <= c <= 'z' then Some(c as int - 'a' as int + 26)
    else if '0' <= c <= '9' then Some(c as int - '0' as int + 52)
    else if c == '-' || c == '+' then Some(62)
    else if c == '_' || c == '/' then Some(63)
    else None
  }

  /** Eight-bit groups cut into six-bit groups; zero bits fill the last one. */
  function Split(bytes: seq<Byte>): seq<Sextet> {
    if bytes == [] then []
    else if |bytes| == 1 then [bytes[0] / 4, bytes[0] % 4 * 16]
    else if |bytes| == 2 then [bytes[0] / 4, bytes[0] % 4 * 16 + bytes[1] / 16, bytes[1] % 16 * 4]
    else Group(bytes[0], bytes[1], bytes[2]) + Split(bytes[3..])
  }

  function Group(a: nat, b: nat, c: nat): (g: seq<Sextet>)
    requires a < 256 && b < 256 && c < 256
    ensures |g| == 4
  {
    [a / 4, a % 4 * 16 + b / 16, b % 16 * 4 + c / 64, c % 64]
  }

  /** Bits that do not fill a byte are dropped. */
  function Join(sextets: seq<Sextet>): seq<Byte> {
    if |sextets| < 2 then []
    else if |sextets| == 2 then [Byte1(sextets[0], sextets[1])]
    else if |sextets| == 3 then [Byte1(sextets[0], sextets[1]), Byte2(sextets[1], sextets[2])]
    else [Byte1(sextets[0], sextets[1]), Byte2(sextets[1], sextets[2]), Byte3(sextets[2], sextets[3])]
         + Join(sextets[4..])
  }

  function Byte1(a: nat, b: nat): Byte
    requires a < 64 && b < 64
  {
    a * 4 + b / 16
  }

  function Byte2(b: nat, c: nat): Byte
    requires b < 64 && c < 64
  {
    b % 16 * 16 + c / 4
  }

  function Byte3(c: nat, d: nat): Byte
    requires c < 64 && d < 64
  {
    c % 4 * 64 + d
  }

  function Write(sextets: seq<Sextet>): string {
    seq(|sextets|, i requires 0 <= i < |sextets| => CharOf(sextets[i]))
  }

  /** Characters of no alphabet, padding among them, are passed over. */
  function Read(text: string): seq<Sextet> {
    if text == "" then []
    else
      var v := SextetOf(text[0]);
      (if v.Some? then [v.value] else []) + Read(text[1..])
  }

  function Encode(bytes: seq<Byte>): string {
    Write(Split(bytes))
  }

  function Decode(text: string): seq<Byte> {
    Join(Read(text))
  }

  lemma GroupHoldsItsBytes(a: nat, b: nat, c: nat)
    requires a < 256 && b < 256 && c < 256
    ensures var g := Group(a, b, c); Byte1(g[0], g[1]) == a && Byte2(g[1], g[2]) == b && Byte3(g[2], g[3]) == c
  {
  }

  lemma {:induction false} JoinOfSplit(bytes: seq<Byte>)
    ensures Join(Split(bytes)) == bytes
  {
    if |bytes| >= 3 {
      JoinOfSplit(bytes[3..]);
      GroupHoldsItsBytes(bytes[0], bytes[1], bytes[2]);
      assert Split(bytes)[4..] == Split(bytes[3..]);
      assert bytes == bytes[..3] + bytes[3..];
    }
  }

  lemma {:induction false} ReadOfWrite(sextets: seq<Sextet>)
    ensures Read(Write(sextets)) == sextets
  {
    if sextets != [] {
      assert Write(sextets)[1..] == Write(sextets[1..]);
      ReadOfWrite(sextets[1..]);
      assert SextetOf(CharOf(sextets[0])) == Some(sextets[0]);
    }
  }

  /** Decoding undoes encoding, for all bytes. */
  lemma {:induction false} DecodeOfEncode(bytes: seq<Byte>)
    ensures Decode(Encode(bytes)) == bytes
  {
    ReadOfWrite(Split(bytes));
    JoinOfSplit(bytes);
  }

  /** Table 2 of section 5: A to Z, a to z and 0 to 9, each in a row, then - and _. */
  lemma CharsAreTheTable()
    ensures CharOf(0) == 'A' && CharOf(25) == 'Z' && CharOf(26) == 'a' && CharOf(51) == 'z'
    ensures CharOf(52) == '0' && CharOf(61) == '9' && CharOf(62) == '-' && CharOf(63) == '_'
    ensures forall v: Sextet :: v < 61 && v != 25 && v != 51 ==> Follows(CharOf(v), CharOf(v + 1))
  {
  }

  predicate Follows(c: char, d: char) {
    d as int == c as int + 1
  }

  /** The sextets as one number, most significant first; and the bytes. */
  function Number64(sextets: seq<Sextet>): nat {
    if sextets == [] then 0 else 64 * Number64(sextets[..|sextets| - 1]) + sextets[|sextets| - 1]
  }

  function Number256(bytes: seq<Byte>): nat {
    if bytes == [] then 0 else 256 * Number256(bytes[..|bytes| - 1]) + bytes[|bytes| - 1]
  }

  lemma Number64Of(a: Sextet, b: Sextet, c: Sextet, d: Sextet)
    ensures Number64([a, b]) == 64 * a + b
    ensures Number64([a, b, c]) == 64 * (64 * a + b) + c
    ensures Number64([a, b, c, d]) == 64 * (64 * (64 * a + b) + c) + d
  {
    assert [a][..0] == [] && [a, b][..1] == [a] && [a, b, c][..2] == [a, b] && [a, b, c, d][..3] == [a, b, c];
    assert Number64([a]) == a;
  }

  lemma Number256Of(a: Byte, b: Byte, c: Byte)
    ensures Number256([a]) == a
    ensures Number256([a, b]) == 256 * a + b
    ensures Number256([a, b, c]) == 256 * (256 * a + b) + c
  {
    assert [a][..0] == [] && [a, b][..1] == [a] && [a, b, c][..2] == [a, b];
    assert Number256([a]) == a;
  }

  /** Three bytes and their four sextets are the same 24-bit number; zero bits are added to one or two
      bytes at the end. */
  lemma SplitKeepsBits(a: Byte, b: Byte, c: Byte)
    ensures |Split([a])| == 2 && Number64(Split([a])) == 16 * Number256([a])
    ensures |Split([a, b])| == 3 && Number64(Split([a, b])) == 4 * Number256([a, b])
    ensures |Split([a, b, c])| == 4 && Number64(Split([a, b, c])) == Number256([a, b, c])
  {
    Number256Of(a, b, c);
    Number64Of(a / 4, a % 4 * 16, 0, 0);
    Number64Of(a / 4, a % 4 * 16 + b / 16, b % 16 * 4, 0);
    Number64Of(a / 4, a % 4 * 16 + b / 16, b % 16 * 4 + c / 64, c % 64);
    assert Split([a, b, c]) == Group(a, b, c) + Split([a, b, c][3..]) && Split([]) == [];
    assert Split([a, b, c]) == Group(a, b, c);
  }

  /** Whole groups are written one after the other. */
  lemma {:induction false} SplitByGroups(groups: seq<Byte>, rest: seq<Byte>)
    requires |groups| % 3 == 0
    ensures Split(groups + rest) == Split(groups) + Split(rest)
  {
    if groups == [] {
      assert groups + rest == rest;
    } else {
      assert (groups + rest)[3..] == groups[3..] + rest;
      SplitByGroups(groups[3..], rest);
    }
  }

  /** `=` and anything else outside the alphabets is passed over. */
  lemma ReadsBothAlphabets(c: char)
    ensures SextetOf(c).Some? <==> UrlSafe(c) || c == '+' || c == '/'
    ensures SextetOf('+') == SextetOf('-') && SextetOf('/') == SextetOf('_')
  {
  }

  predicate UrlSafe(c: char) {
    'A' <= c <= 'Z' || 'a' <= c <= 'z' || '0' <= c <= '9' || c == '-' || c == '_'
  }

  lemma {:induction false} SplitLength(bytes: seq<Byte>)
    ensures |Split(bytes)| == (4 * |bytes| + 2) / 3
  {
    if |bytes| >= 3 { SplitLength(bytes[3..]); }
  }

  /** A token that needs no escaping in a query, four characters for three bytes, no padding. */
  lemma {:induction false} EncodeIsUrlSafe(bytes: seq<Byte>)
    ensures |Encode(bytes)| == (4 * |bytes| + 2) / 3
    ensures forall i :: 0 <= i < |Encode(bytes)| ==> UrlSafe(Encode(bytes)[i])
  {
    SplitLength(bytes);
  }
}

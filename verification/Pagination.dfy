/** Opaque cursors and pages (src/common/pagination.ts), and the page query that asks for one row
    more (src/products/products.service.ts:43-58). */
module Pagination {
  import opened Wrappers
  import opened Decimal
  import opened Base64Url

  const MAX_SAFE_INTEGER: nat := 9007199254740991
  const MAX_BIGINT: nat := 9223372036854775807

  // ---------------------------------------------------------------- cursors

  /** JSON.parse of the text, and Number() of its member "o": not JSON or JSON null, which both
      throw; not a finite number; a number. */
  datatype Parsed = Throws | NotFinite | Offset(o: real)

  function Ascii(text: string): seq<Byte>
    requires forall i :: 0 <= i < |text| ==> text[i] < 128 as char
  {
    seq(|text|, i requires 0 <= i < |text| => text[i] as int)
  }

  const OPENING := "{\"o\":"

  /** JSON.stringify({ o: offset }) */
  function CursorJson(offset: nat): (json: string)
    ensures forall i :: 0 <= i < |json| ==> json[i] < 128 as char
  {
    OPENING + Text(offset) + "}"
  }

  function EncodeCursor(offset: nat): string {
    Encode(Ascii(CursorJson(offset)))
  }

  const NOT_A_TOKEN := "query parameter 'cursor' is not a valid opaque token"

  /** `parse` is the JSON parser of the platform. */
  function DecodeCursor(parse: seq<Byte> -> Parsed, cursor: Option<string>): Result<nat, string> {
    if cursor.None? then Success(0)
    else
      match parse(Decode(cursor.value))
      case Throws => Failure(NOT_A_TOKEN)
      case NotFinite => Failure(NOT_A_TOKEN)
      case Offset(o) => if o.Floor as real != o || o < 0.0 then Failure(NOT_A_TOKEN) else Success(o.Floor)
  }

  /** What is asked of the parser: it reads what JSON.stringify printed for a safe integer. */
  ghost predicate Faithful(parse: seq<Byte> -> Parsed) {
    forall n: nat :: n <= MAX_SAFE_INTEGER ==> parse(Ascii(CursorJson(n))) == Offset(n as real)
  }

  /** decodeCursor undoes encodeCursor, for every safe integer. */
  lemma CursorRoundTrip(parse: seq<Byte> -> Parsed, offset: nat)
    requires Faithful(parse) && offset <= MAX_SAFE_INTEGER
    ensures DecodeCursor(parse, Some(EncodeCursor(offset))) == Success(offset)
  {
    DecodeOfEncode(Ascii(CursorJson(offset)));
    assert parse(Ascii(CursorJson(offset))) == Offset(offset as real);
  }

  /** What is in a cursor. */
  lemma {:induction false} CursorTextIs(offset: nat)
    ensures CursorJson(offset) == "{\"o\":" + Text(offset) + "}"
  {
  }

  /** Which cursors are taken: none means the start, a token only one whose "o" is a whole number from
      0; everything else is refused with one message. */
  lemma CursorsTaken(parse: seq<Byte> -> Parsed, token: string, offset: nat)
    ensures DecodeCursor(parse, None) == Success(0)
    ensures DecodeCursor(parse, Some(token)) == Success(offset) <==> parse(Decode(token)) == Offset(offset as real)
    ensures DecodeCursor(parse, Some(token)).Failure? ==>
      && DecodeCursor(parse, Some(token)).error == "query parameter 'cursor' is not a valid opaque token"
      && forall n: nat :: !ReadsAs(parse, token, n)
  {
    if DecodeCursor(parse, Some(token)).Failure? {
      forall n: nat ensures !ReadsAs(parse, token, n) {
        assert (n as real).Floor == n;
      }
    }
  }

  predicate ReadsAs(parse: seq<Byte> -> Parsed, token: string, n: nat) {
    parse(Decode(token)) == Offset(n as real)
  }

  function FromAscii(bytes: seq<Byte>): string {
    seq(|bytes|, i requires 0 <= i < |bytes| => bytes[i] as char)
  }

  /** The least such parser: it takes the printed form and nothing else. */
  function CanonicalParse(bytes: seq<Byte>): Parsed {
    var text := FromAscii(bytes);
    if |text| > |OPENING| + 1 && OPENING <= text && text[|text| - 1] == '}'
       && AllDigits(text[|OPENING|..|text| - 1])
       && Text(Value(text[|OPENING|..|text| - 1])) == text[|OPENING|..|text| - 1]
    then Offset(Value(text[|OPENING|..|text| - 1]) as real)
    else Throws
  }

  lemma CanonicalParseIsFaithful()
    ensures Faithful(CanonicalParse)
  {
    forall n: nat | n <= MAX_SAFE_INTEGER
      ensures CanonicalParse(Ascii(CursorJson(n))) == Offset(n as real)
    {
      var text := CursorJson(n);
      assert FromAscii(Ascii(text)) == text;
      assert text[|OPENING|..|text| - 1] == Text(n);
      ValueOfText(n);
    }
  }

  // ---------------------------------------------------------------- pages

  datatype Page<T> = Page(items: seq<T>, nextCursor: Option<string>)

  function Min(a: nat, b: nat): nat {
    if a < b then a else b
  }

  /** Array.prototype.slice for non-negative bounds. */
  function Slice<T>(xs: seq<T>, from: nat, to: nat): seq<T> {
    if from >= |xs| || to <= from then [] else xs[from..Min(to, |xs|)]
  }

  function PageAt<T>(collection: seq<T>, limit: nat, offset: nat): Page<T> {
    Page(Slice(collection, offset, offset + limit),
         if offset + limit < |collection| then Some(EncodeCursor(offset + limit)) else None)
  }

  function Paginate<T>(parse: seq<Byte> -> Parsed, collection: seq<T>, limit: Option<nat>, cursor: Option<string>,
                       defaultLimit: nat): Result<Page<T>, string> {
    var rows := if limit.Some? then limit.value else defaultLimit;
    match DecodeCursor(parse, cursor)
    case Failure(e) => Failure(e)
    case Success(offset) => Success(PageAt(collection, rows, offset))
  }

  /** A page in so many words: the rows from the offset on, as many as asked for or the default, and a
      next cursor, for the row after the last, exactly if there is one. */
  lemma PageHolds<T>(parse: seq<Byte> -> Parsed, collection: seq<T>, limit: Option<nat>, cursor: Option<string>,
                     defaultLimit: nat)
    requires DecodeCursor(parse, cursor).Success?
    ensures Paginate(parse, collection, limit, cursor, defaultLimit).Success?
    ensures var from := DecodeCursor(parse, cursor).value;
      var rows := match limit case Some(n) => n case None => defaultLimit;
      var page := Paginate(parse, collection, limit, cursor, defaultLimit).value;
      && |page.items| <= rows
      && (forall i :: 0 <= i < |page.items| ==> from + i < |collection| && page.items[i] == collection[from + i])
      && (|page.items| < rows ==> from + |page.items| >= |collection|)
      && page.nextCursor == if from + rows < |collection| then Some(EncodeCursor(from + rows)) else None
  {
  }

  /** SELECT ... ORDER BY id LIMIT limit OFFSET offset; an offset that is no bigint is refused. */
  function QueryPage<T>(table: seq<T>, limit: nat, offset: nat): Result<seq<T>, string> {
    if offset > MAX_BIGINT then Failure("out of range for type bigint") else Success(Slice(table, offset, offset + limit))
  }

  /** The service asks for one row more than the page holds. */
  function ListProducts<T>(parse: seq<Byte> -> Parsed, table: seq<T>, limit: Option<nat>, cursor: Option<string>,
                           defaultLimit: nat): Result<Page<T>, string> {
    match DecodeCursor(parse, cursor)
    case Failure(e) => Failure(e)
    case Success(offset) => QueriedPage(table, if limit.Some? then limit.value else defaultLimit, offset)
  }

  function QueriedPage<T>(table: seq<T>, limit: nat, offset: nat): Result<Page<T>, string> {
    match QueryPage(table, limit + 1, offset)
    case Failure(e) => Failure(e)
    case Success(rows) =>
      var hasMore := |rows| > limit;
      Success(Page(if hasMore then Slice(rows, 0, limit) else rows,
                   if hasMore then Some(EncodeCursor(offset + limit)) else None))
  }

  /** Both ways of paging give the same answer, errors included, unless a cursor no page ever
      handed out carries an offset beyond bigint. */
  lemma BothFormsAgree<T>(parse: seq<Byte> -> Parsed, table: seq<T>, limit: Option<nat>, cursor: Option<string>,
                          defaultLimit: nat)
    ensures ListProducts(parse, table, limit, cursor, defaultLimit) == Paginate(parse, table, limit, cursor, defaultLimit)
      <==> (DecodeCursor(parse, cursor).Success? ==> DecodeCursor(parse, cursor).value <= MAX_BIGINT)
  {
    var decoded := DecodeCursor(parse, cursor);
    if decoded.Success? {
      OneRowMore(table, if limit.Some? then limit.value else defaultLimit, decoded.value);
    }
  }

  lemma OneRowMore<T>(table: seq<T>, limit: nat, offset: nat)
    ensures QueriedPage(table, limit, offset) == Success(PageAt(table, limit, offset)) <==> offset <= MAX_BIGINT
  {
    var rows := Slice(table, offset, offset + (limit + 1));
    assert (if |rows| > limit then Slice(rows, 0, limit) else rows) == Slice(table, offset, offset + limit);
  }

  // ---------------------------------------------------------------- walks

  /** A request on the walk: the collection as it is then, and the limit asked for. */
  datatype Visit<T> = Visit(collection: seq<T>, limit: nat)

  datatype Walked<T> = Walked(items: seq<T>, next: Option<string>, visits: nat)

  /** Follows next_cursor through `visits`, from `cursor`, until there is none. */
  function Walk<T>(parse: seq<Byte> -> Parsed, visits: seq<Visit<T>>, cursor: Option<string>)
    : (r: Result<Walked<T>, string>)
    requires visits != []
    ensures r.Success? ==> 1 <= r.value.visits <= |visits|
    decreases |visits|
  {
    match Paginate(parse, visits[0].collection, Some(visits[0].limit), cursor, 0)
    case Failure(e) => Failure(e)
    case Success(page) =>
      if page.nextCursor.None? || |visits| == 1 then Success(Walked(page.items, page.nextCursor, 1))
      else
        match Walk(parse, visits[1..], page.nextCursor)
        case Failure(e) => Failure(e)
        case Success(rest) => Success(Walked(page.items + rest.items, rest.next, 1 + rest.visits))
  }

  /** Items are only appended from one request to the next. */
  predicate Growing<T(==)>(visits: seq<Visit<T>>) {
    forall i, j :: 0 <= i < j < |visits| ==> visits[i].collection <= visits[j].collection
  }

  predicate Sensible<T(==)>(visits: seq<Visit<T>>) {
    && Growing(visits)
    && forall i :: 0 <= i < |visits| ==> visits[i].limit >= 1 && |visits[i].collection| <= MAX_SAFE_INTEGER
  }

  function Limits<T>(visits: seq<Visit<T>>): nat {
    if visits == [] then 0 else visits[0].limit + Limits(visits[1..])
  }

  /** The walk began at `offset`: it has what is between there and where it stands, and it stands
      at the end of the collection when there is no next cursor. */
  predicate Stands<T(==)>(visits: seq<Visit<T>>, offset: nat, w: Walked<T>) {
    && 1 <= w.visits <= |visits|
    && var last := visits[w.visits - 1].collection;
       var end := offset + |w.items|;
       && end <= |last| && w.items == last[offset..end]
       && (w.next.None? <==> end == |last|)
       && (w.next.Some? ==> w.visits == |visits| && |w.items| == Limits(visits))
  }

  lemma OnePage<T>(visits: seq<Visit<T>>, offset: nat)
    requires visits != [] && offset <= |visits[0].collection| && visits[0].limit >= 1
    ensures var page := PageAt(visits[0].collection, visits[0].limit, offset);
      page.nextCursor.None? || |visits| == 1 ==> Stands(visits, offset, Walked(page.items, page.nextCursor, 1))
  {
    assert Limits(visits) == visits[0].limit + Limits(visits[1..]);
    assert |visits| == 1 ==> visits[1..] == [];
  }

  lemma OneMorePage<T>(visits: seq<Visit<T>>, offset: nat, items: seq<T>, rest: Walked<T>)
    requires |visits| > 1 && Growing(visits) && offset + visits[0].limit <= |visits[0].collection|
    requires items == visits[0].collection[offset..offset + visits[0].limit]
    requires Stands(visits[1..], offset + visits[0].limit, rest)
    ensures Stands(visits, offset, Walked(items + rest.items, rest.next, 1 + rest.visits))
  {
    var last := visits[rest.visits].collection;
    assert visits[1..][rest.visits - 1] == visits[rest.visits];
    assert visits[0].collection <= last;
    Adjacent(visits[0].collection, last, offset, offset + visits[0].limit, offset + visits[0].limit + |rest.items|);
  }

  lemma Adjacent<T>(earlier: seq<T>, later: seq<T>, a: nat, b: nat, c: nat)
    requires earlier <= later && a <= b <= |earlier| && b <= c <= |later|
    ensures earlier[a..b] + later[b..c] == later[a..c]
  {
  }

  lemma {:induction false} WalkFrom<T>(parse: seq<Byte> -> Parsed, visits: seq<Visit<T>>, cursor: Option<string>, offset: nat)
    requires Faithful(parse) && visits != [] && Sensible(visits)
    requires DecodeCursor(parse, cursor) == Success(offset) && offset <= |visits[0].collection|
    ensures Walk(parse, visits, cursor).Success? && Stands(visits, offset, Walk(parse, visits, cursor).value)
    decreases |visits|
  {
    var v := visits[0];
    var page := PageAt(v.collection, v.limit, offset);
    WalkOn(parse, visits, cursor, page);
    if page.nextCursor.None? || |visits| == 1 {
      OnePage(visits, offset);
    } else {
      CursorRoundTrip(parse, offset + v.limit);
      SensibleRest(visits);
      WalkFrom(parse, visits[1..], page.nextCursor, offset + v.limit);
      OneMorePage(visits, offset, page.items, Walk(parse, visits[1..], page.nextCursor).value);
    }
  }

  lemma {:induction false} WalkOn<T>(parse: seq<Byte> -> Parsed, visits: seq<Visit<T>>, cursor: Option<string>, page: Page<T>)
    requires visits != []
    requires Paginate(parse, visits[0].collection, Some(visits[0].limit), cursor, 0) == Success(page)
    ensures page.nextCursor.None? || |visits| == 1 ==>
      Walk(parse, visits, cursor) == Success(Walked(page.items, page.nextCursor, 1))
    ensures page.nextCursor.Some? && |visits| > 1 && Walk(parse, visits[1..], page.nextCursor).Success? ==>
      var rest := Walk(parse, visits[1..], page.nextCursor).value;
      Walk(parse, visits, cursor) == Success(Walked(page.items + rest.items, rest.next, 1 + rest.visits))
  {
  }

  lemma SensibleRest<T>(visits: seq<Visit<T>>)
    requires Sensible(visits) && visits != []
    ensures Sensible(visits[1..])
    ensures |visits| > 1 ==> |visits[0].collection| <= |visits[1..][0].collection|
  {
    assert |visits| > 1 ==> visits[0].collection <= visits[1].collection;
    assert forall i :: 0 <= i < |visits[1..]| ==> visits[1..][i] == visits[i + 1];
  }

  /** A walk from the start, with any limits of at least one and items appended meanwhile, loses
      nothing and repeats nothing: what it has collected is a prefix of the collection, and once
      there is no next cursor it is the whole collection as of the last request. */
  lemma {:induction false} WalkIsComplete<T>(parse: seq<Byte> -> Parsed, visits: seq<Visit<T>>)
    requires Faithful(parse) && visits != [] && Sensible(visits)
    ensures Walk(parse, visits, None).Success?
    ensures var w := Walk(parse, visits, None).value;
      && w.visits >= 1 && w.items <= visits[w.visits - 1].collection
      && (w.next.None? <==> w.items == visits[w.visits - 1].collection)
  {
    WalkFrom(parse, visits, None, 0);
    var w := Walk(parse, visits, None).value;
    var last := visits[w.visits - 1].collection;
    assert last[..|w.items|] == last[0..|w.items|];
    if w.items == last { assert |w.items| == |last|; }
  }

  /** A walk ends: with as many requests as their limits need to cover the collection of the last
      of them there is no next cursor. */
  lemma WalkEnds<T>(parse: seq<Byte> -> Parsed, visits: seq<Visit<T>>)
    requires Faithful(parse) && visits != [] && Sensible(visits)
    requires Limits(visits) >= |visits[|visits| - 1].collection|
    ensures Walk(parse, visits, None).Success? && Walk(parse, visits, None).value.next.None?
  {
    WalkFrom(parse, visits, None, 0);
  }
}
